/**
 * The background jobs: routing a document type to its processor, the five
 * processors that build `extracted_data`, the `process_document` status flow,
 * the notification lookup, the hourly sweep of stuck documents and the
 * archiving of completed cases.
 *
 * S3, PDF parsing, Celery and the clock are outside the model: what they
 * return is passed in (`FetchOutcome`, `pdfText`, `NotifyOutcome`, `copy`,
 * `now`).  Tables are sequences of records in the order the query yields them.
 */
module Tasks {
  import opened Wrappers
  import opened Strings
  import opened Models
  import opened Utils

  // ---------------------------------------------------------------------------
  // Dispatch
  // ---------------------------------------------------------------------------

  datatype Category = Identity | Financial | Educational | Employment | Generic

  const IdentityTypes: seq<string> := ["passport", "photo", "birth_certificate"]
  const FinancialTypes: seq<string> := ["bank_statement", "tax_return", "financial_proof"]
  const EducationalTypes: seq<string> := ["degree", "transcript", "english_test"]
  const EmploymentTypes: seq<string> := ["employment_letter", "payslip", "resume"]

  /** The `if/elif` chain of `process_document`: the first list holding the type wins, and anything else is generic. */
  function CategoryOf(documentType: string): (c: Category)
    ensures c == Identity <==> documentType in IdentityTypes
    ensures c == Financial <==> documentType in FinancialTypes
    ensures c == Educational <==> documentType in EducationalTypes
    ensures c == Employment <==> documentType in EmploymentTypes
    ensures c == Generic <==> documentType !in IdentityTypes + FinancialTypes + EducationalTypes + EmploymentTypes
  {
    if documentType in IdentityTypes then Identity
    else if documentType in FinancialTypes then Financial
    else if documentType in EducationalTypes then Educational
    else if documentType in EmploymentTypes then Employment
    else Generic
  }

  /** The `document_category` each processor writes. */
  function CategoryName(c: Category): string
  {
    match c
    case Identity => "identity"
    case Financial => "financial"
    case Educational => "educational"
    case Employment => "employment"
    case Generic => "generic"
  }

  /** Distinct categories are written under distinct names, so the name tells the branch taken. */
  lemma CategoryNameInjective(c1: Category, c2: Category)
    ensures CategoryName(c1) == CategoryName(c2) <==> c1 == c2
  {
    if c1 != c2 {
      assert CategoryName(c1)[0] != CategoryName(c2)[0] || |CategoryName(c1)| != |CategoryName(c2)|;
    }
  }

  /**
   * Twelve of the nineteen type choices have a dedicated processor; the other
   * seven (marriage certificate, reference letter, the four application
   * documents, other) are processed as generic.
   */
  lemma CategoryOfChoices(documentType: string)
    requires documentType in DocumentTypeChoices
    ensures CategoryOf(documentType) == Generic <==>
              documentType in ["marriage_certificate", "reference_letter", "application_form",
                               "visa_application", "police_clearance", "medical", "other"]
  {
  }

  // ---------------------------------------------------------------------------
  // Text extraction and the processors
  // ---------------------------------------------------------------------------

  const PdfMime: string := "application/pdf"
  const ImageMimes: seq<string> := ["image/jpeg", "image/png"]

  /** What `extract_text_from_image` returns: a fixed placeholder. */
  const ImagePlaceholderText: string := "OCR text extraction not implemented yet"

  /** The part of `extracted_data` and the OCR text a processor hands back. */
  datatype Extraction = Extraction(data: JsonObject, ocrText: Option<string>)

  /** The entries every processor starts with: its category and the moment of processing. */
  function BaseData(c: Category, now: Time): (data: JsonObject)
    ensures data.Keys == {"document_category", "processed_at"}
    ensures data["document_category"] == JStr(CategoryName(c))
  {
    map["document_category" := JStr(CategoryName(c)), "processed_at" := JTime(now)]
  }

  /** Text from a PDF (`pdfText`, the outcome of the PDF reader, `None` when it failed) or the image placeholder, as `images` allows. */
  function ExtractText(fileType: string, images: bool, pdfText: Option<string>): (text: Option<string>)
    ensures fileType == PdfMime ==> text == pdfText
    ensures fileType != PdfMime && images && fileType in ImageMimes ==> text == Some(ImagePlaceholderText)
    ensures fileType != PdfMime && !(images && fileType in ImageMimes) ==> text.None?
  {
    if fileType == PdfMime then pdfText
    else if images && fileType in ImageMimes then Some(ImagePlaceholderText)
    else None
  }

  /** `process_identity_document`: PDF or image text, and the text length and a flag when the text is non-empty. */
  function ProcessIdentityDocument(fileType: string, pdfText: Option<string>, now: Time): (r: Extraction)
    ensures r.ocrText == ExtractText(fileType, true, pdfText)
    ensures "document_category" in r.data && r.data["document_category"] == JStr("identity")
    ensures TruthyText(r.ocrText) ==>
              && r.data.Keys == {"document_category", "processed_at", "text_length", "has_text"}
              && r.data["text_length"] == JInt(|r.ocrText.value|)
              && r.data["has_text"] == JBool(true)
    ensures !TruthyText(r.ocrText) ==> r.data == BaseData(Identity, now)
  {
    var text := ExtractText(fileType, true, pdfText);
    var data := BaseData(Identity, now);
    if TruthyText(text) then
      Extraction(data["text_length" := JInt(|text.value|)]["has_text" := JBool(true)], text)
    else
      Extraction(data, text)
  }

  /** `process_financial_document`: PDF text only. */
  function ProcessFinancialDocument(fileType: string, pdfText: Option<string>, now: Time): (r: Extraction)
    ensures r == Extraction(BaseData(Financial, now), ExtractText(fileType, false, pdfText))
    ensures r.ocrText.Some? ==> fileType == PdfMime
  {
    Extraction(BaseData(Financial, now), if fileType == PdfMime then pdfText else None)
  }

  /** `process_educational_document`: PDF text only. */
  function ProcessEducationalDocument(fileType: string, pdfText: Option<string>, now: Time): (r: Extraction)
    ensures r == Extraction(BaseData(Educational, now), ExtractText(fileType, false, pdfText))
    ensures r.ocrText.Some? ==> fileType == PdfMime
  {
    Extraction(BaseData(Educational, now), if fileType == PdfMime then pdfText else None)
  }

  /** `process_employment_document`: PDF text only. */
  function ProcessEmploymentDocument(fileType: string, pdfText: Option<string>, now: Time): (r: Extraction)
    ensures r == Extraction(BaseData(Employment, now), ExtractText(fileType, false, pdfText))
    ensures r.ocrText.Some? ==> fileType == PdfMime
  {
    Extraction(BaseData(Employment, now), if fileType == PdfMime then pdfText else None)
  }

  /** `process_generic_document`: PDF or image text, no extra entries. */
  function ProcessGenericDocument(fileType: string, pdfText: Option<string>, now: Time): (r: Extraction)
    ensures r == Extraction(BaseData(Generic, now), ExtractText(fileType, true, pdfText))
  {
    var text := if fileType == PdfMime then pdfText
                else if fileType in ImageMimes then Some(ImagePlaceholderText)
                else None;
    Extraction(BaseData(Generic, now), text)
  }

  /** The processor `process_document` calls for a document type. */
  function Dispatch(documentType: string, fileType: string, pdfText: Option<string>, now: Time): Extraction
  {
    match CategoryOf(documentType)
    case Identity => ProcessIdentityDocument(fileType, pdfText, now)
    case Financial => ProcessFinancialDocument(fileType, pdfText, now)
    case Educational => ProcessEducationalDocument(fileType, pdfText, now)
    case Employment => ProcessEmploymentDocument(fileType, pdfText, now)
    case Generic => ProcessGenericDocument(fileType, pdfText, now)
  }

  /** Whatever the type, the result names the branch taken and the processing moment. */
  lemma DispatchNamesCategory(documentType: string, fileType: string, pdfText: Option<string>, now: Time)
    ensures var r := Dispatch(documentType, fileType, pdfText, now);
            && r.data["document_category"] == JStr(CategoryName(CategoryOf(documentType)))
            && "processed_at" in r.data && r.data["processed_at"] == JTime(now)
  {
  }

  /** Image text is attempted only by the identity and generic processors; PDF text by all five. */
  lemma DispatchOcrRule(documentType: string, fileType: string, pdfText: Option<string>, now: Time)
    ensures var c := CategoryOf(documentType);
            Dispatch(documentType, fileType, pdfText, now).ocrText
              == ExtractText(fileType, c == Identity || c == Generic, pdfText)
  {
  }

  /** Only identity documents get `text_length` and `has_text`, and only with non-empty text. */
  lemma DispatchTextEntries(documentType: string, fileType: string, pdfText: Option<string>, now: Time)
    ensures var r := Dispatch(documentType, fileType, pdfText, now);
            "text_length" in r.data <==> CategoryOf(documentType) == Identity && TruthyText(r.ocrText)
  {
  }

  /**
   * No code path sets `file_type`, which stays empty from creation: so a
   * created document never has OCR attempted, whatever its type.
   */
  lemma CreatedDocumentGetsNoText(id: Id, client: ClientRecord, documentType: string, title: string,
                                  description: Option<string>, file: FileRef, uploadedBy: Option<Id>,
                                  storedName: string, created: Time, pdfText: Option<string>, now: Time)
    ensures var d := CreatedDocument(id, client, documentType, title, description, file, uploadedBy, storedName, created);
            Dispatch(d.documentType, d.fileType, pdfText, now).ocrText.None?
  {
    var d := CreatedDocument(id, client, documentType, title, description, file, uploadedBy, storedName, created);
    assert d.fileType != PdfMime && d.fileType !in ImageMimes;
  }

  // ---------------------------------------------------------------------------
  // process_document
  // ---------------------------------------------------------------------------

  /** How the S3 download went: fetched, a botocore `ClientError`, or any other exception (with its text). */
  datatype FetchOutcome = Fetched | StorageClientError | FetchFailed(error: string)

  /** Whether queueing the notification task succeeded, or the exception text when it raised. */
  datatype NotifyOutcome = Queued | QueueFailed(error: string)

  /** What the task returns, or that it raised `self.retry` (which schedules a new attempt). */
  datatype TaskResult =
    | Succeeded(documentId: Id, extractedData: JsonObject)
    | Failed(message: string)
    | RetryScheduled(countdown: nat)

  const NotFoundMessage: string := "Document not found"
  const RetryCountdown: nat := 60

  /** The document row after one run of `process_document`, from the row as loaded. */
  function ProcessedRow(d: DocumentRecord, client: ClientRecord, fetch: FetchOutcome, pdfText: Option<string>,
                        notify: NotifyOutcome, now: Time): (r: DocumentRecord)
    ensures fetch == StorageClientError ==> r.status == "processing"
    ensures fetch.FetchFailed? || (fetch == Fetched && notify.QueueFailed?) ==> r.status == "uploaded"
    ensures fetch == Fetched && notify == Queued ==> r.status == "processed"
  {
    var started := MarkedProcessing(d, client, now);
    match fetch
    case StorageClientError => started
    case FetchFailed(_) => Saved(started.(status := "uploaded"), client, now)
    case Fetched =>
      var x := Dispatch(started.documentType, started.fileType, pdfText, now);
      var finished := MarkedProcessed(started, client, Some(x.data), x.ocrText, now);
      match notify
      case Queued => finished
      case QueueFailed(_) => Saved(finished.(status := "uploaded"), client, now)
  }

  /** What one run of `process_document` returns. */
  function ProcessResult(d: DocumentRecord, fetch: FetchOutcome, pdfText: Option<string>,
                         notify: NotifyOutcome, now: Time): (result: TaskResult)
    ensures result.Succeeded? <==> fetch == Fetched && notify == Queued
    ensures result.RetryScheduled? <==> fetch == StorageClientError
    ensures result.RetryScheduled? ==> result.countdown == 60
    ensures result.Succeeded? ==> result.documentId == d.id
  {
    match fetch
    case StorageClientError => RetryScheduled(RetryCountdown)
    case FetchFailed(e) => Failed(e)
    case Fetched =>
      match notify
      case Queued => Succeeded(d.id, Dispatch(d.documentType, d.fileType, pdfText, now).data)
      case QueueFailed(e) => Failed(e)
  }

  /**
   * `process_document(document_id)`; `doc` is the loaded document, or null
   * when `Document.objects.get` raised `DoesNotExist`.
   */
  method ProcessDocument(doc: Document?, fetch: FetchOutcome, pdfText: Option<string>, notify: NotifyOutcome, now: Time)
    returns (result: TaskResult)
    modifies doc
    ensures doc == null ==> result == Failed(NotFoundMessage)
    ensures doc != null ==> doc.Row() == ProcessedRow(old(doc.Row()), doc.client, fetch, pdfText, notify, now)
    ensures doc != null ==> result == ProcessResult(old(doc.Row()), fetch, pdfText, notify, now)
  {
    if doc == null {
      return Failed(NotFoundMessage);
    }
    doc.MarkAsProcessing(now);
    ghost var started := doc.Row();
    match fetch {
      case StorageClientError =>
        result := RetryScheduled(RetryCountdown);
      case FetchFailed(e) =>
        doc.status := "uploaded";
        assert doc.Row() == started.(status := "uploaded");
        doc.Save(now);
        result := Failed(e);
      case Fetched =>
        var x := Dispatch(doc.documentType, doc.fileType, pdfText, now);
        doc.MarkAsProcessed(Some(x.data), x.ocrText, now);
        ghost var finished := doc.Row();
        assert finished == MarkedProcessed(started, doc.client, Some(x.data), x.ocrText, now);
        match notify {
          case Queued =>
            result := Succeeded(doc.id, x.data);
          case QueueFailed(e) =>
            doc.status := "uploaded";
            assert doc.Row() == finished.(status := "uploaded");
            doc.Save(now);
            result := Failed(e);
        }
    }
  }

  /** The lifecycle steps one run takes. */
  function ProcessSteps(fetch: FetchOutcome, notify: NotifyOutcome): seq<LifecycleStep>
  {
    match fetch
    case StorageClientError => [StartProcessing]
    case FetchFailed(_) => [StartProcessing, ResetToUploaded]
    case Fetched => if notify == Queued then [StartProcessing, FinishProcessing]
                    else [StartProcessing, FinishProcessing, ResetToUploaded]
  }

  /** A run moves the status exactly as its lifecycle steps say, from whatever status it found. */
  lemma ProcessFollowsLifecycle(d: DocumentRecord, client: ClientRecord, fetch: FetchOutcome,
                                pdfText: Option<string>, notify: NotifyOutcome, now: Time)
    ensures ProcessedRow(d, client, fetch, pdfText, notify, now).status == Run(d.status, ProcessSteps(fetch, notify))
  {
    var steps := ProcessSteps(fetch, notify);
    LastStepDecides(d.status, "", steps);
    var r := ProcessedRow(d, client, fetch, pdfText, notify, now);
    if fetch == StorageClientError {
      assert steps == [StartProcessing] && r.status == "processing";
    } else if fetch.FetchFailed? || notify.QueueFailed? {
      assert steps[|steps| - 1] == ResetToUploaded && r.status == "uploaded";
    } else {
      assert steps == [StartProcessing, FinishProcessing] && r.status == "processed";
    }
  }

  /** A successful run stores what the processor for the document's type produced, stamped with the run's moment. */
  lemma ProcessSuccessStoresExtraction(d: DocumentRecord, client: ClientRecord, pdfText: Option<string>, now: Time)
    ensures var r := ProcessedRow(d, client, Fetched, pdfText, Queued, now);
            var x := Dispatch(d.documentType, d.fileType, pdfText, now);
            && r.aiExtractedData == Some(x.data)
            && r.ocrText == (if TruthyText(x.ocrText) then x.ocrText else d.ocrText)
            && r.processedAt == Some(now)
            && ProcessResult(d, Fetched, pdfText, Queued, now) == Succeeded(d.id, x.data)
  {
    var x := Dispatch(d.documentType, d.fileType, pdfText, now);
    DispatchNamesCategory(d.documentType, d.fileType, pdfText, now);
    assert "document_category" in x.data;
  }

  /**
   * A failure to queue the notification comes after the processed state was
   * saved, yet the error path still resets the status: the document ends
   * 'uploaded' while holding its processing results.
   */
  lemma NotifyFailureUndoesStatusOnly(d: DocumentRecord, client: ClientRecord, pdfText: Option<string>, e: string, now: Time)
    ensures var r := ProcessedRow(d, client, Fetched, pdfText, QueueFailed(e), now);
            && r.status == "uploaded"
            && r.processedAt == Some(now)
            && r.aiExtractedData == ProcessedRow(d, client, Fetched, pdfText, Queued, now).aiExtractedData
  {
  }

  /** A run never leaves the row untouched: its time stamp is the run's moment. */
  lemma ProcessStampsRow(d: DocumentRecord, client: ClientRecord, fetch: FetchOutcome,
                         pdfText: Option<string>, notify: NotifyOutcome, now: Time)
    ensures ProcessedRow(d, client, fetch, pdfText, notify, now).updatedAt == now
    ensures Captured(ProcessedRow(d, client, fetch, pdfText, notify, now), client)
  {
  }

  // ---------------------------------------------------------------------------
  // notify_case_officer
  // ---------------------------------------------------------------------------

  datatype NotifyResult = Notified(recipient: string) | NoAssignment | NotifyNotFound

  /**
   * `notify_case_officer`: the client's assigned officer is told, if there is
   * one, and the answer names the officer's email.  `emails` is the user
   * table's email column; the foreign key guarantees the officer's row.
   */
  function NotifyCaseOfficer(found: Option<ClientRecord>, emails: map<Id, string>): (r: NotifyResult)
    requires found.Some? && found.value.assignedTo.Some? ==> found.value.assignedTo.value in emails
    ensures found.None? <==> r == NotifyNotFound
    ensures found.Some? && found.value.assignedTo.Some? <==> r.Notified?
    ensures r.Notified? ==> r.recipient == emails[found.value.assignedTo.value]
  {
    match found
    case None => NotifyNotFound
    case Some(client) =>
      match client.assignedTo
      case Some(officer) => Notified(emails[officer])
      case None => NoAssignment
  }

  // ---------------------------------------------------------------------------
  // cleanup_temp_files
  // ---------------------------------------------------------------------------

  const OneHour: int := 3600

  /** A document the sweep selects: still 'processing', last saved more than an hour before `now`. */
  predicate Stuck(d: DocumentRecord, now: Time)
  {
    d.status == "processing" && d.updatedAt < now - OneHour
  }

  function CountStuck(docs: seq<DocumentRecord>, now: Time): (n: nat)
    ensures n <= |docs|
    decreases |docs|
  {
    if |docs| == 0 then 0
    else CountStuck(docs[..|docs| - 1], now) + (if Stuck(docs[|docs| - 1], now) then 1 else 0)
  }

  /** Every client a document points to is in the table (the foreign key holds). */
  predicate ClientsKnown(docs: seq<DocumentRecord>, clients: map<Id, ClientRecord>)
  {
    forall i :: 0 <= i < |docs| ==> docs[i].clientId in clients
  }

  /** One row after the sweep: reset to 'uploaded' and fully saved when stuck, untouched otherwise. */
  function Swept(d: DocumentRecord, clients: map<Id, ClientRecord>, now: Time): (r: DocumentRecord)
    requires d.clientId in clients
    ensures Stuck(d, now) ==> r.status == "uploaded" && r.updatedAt == now
    ensures !Stuck(d, now) ==> r == d
  {
    if Stuck(d, now) then Saved(d.(status := "uploaded"), clients[d.clientId], now) else d
  }

  /** `cleanup_temp_files()`: the new table and the `reset_count` it reports. */
  method CleanupTempFiles(docs: seq<DocumentRecord>, clients: map<Id, ClientRecord>, now: Time)
    returns (swept: seq<DocumentRecord>, resetCount: nat)
    requires ClientsKnown(docs, clients)
    ensures |swept| == |docs|
    ensures forall i :: 0 <= i < |docs| ==> swept[i] == Swept(docs[i], clients, now)
    ensures resetCount == CountStuck(docs, now)
  {
    swept := docs;
    resetCount := 0;
    var i := 0;
    while i < |docs|
      invariant 0 <= i <= |docs|
      invariant |swept| == |docs|
      invariant forall k :: 0 <= k < i ==> swept[k] == Swept(docs[k], clients, now)
      invariant forall k :: i <= k < |docs| ==> swept[k] == docs[k]
      invariant resetCount == CountStuck(docs[..i], now)
    {
      assert docs[..i + 1][..i] == docs[..i];
      var d := docs[i];
      if Stuck(d, now) {
        swept := swept[i := Swept(d, clients, now)];
        resetCount := resetCount + 1;
      }
      i := i + 1;
    }
    assert docs[..i] == docs;
  }

  /** After a sweep nothing is stuck any more, so a second sweep at the same moment resets nothing. */
  lemma {:induction false} SweepLeavesNothingStuck(docs: seq<DocumentRecord>, clients: map<Id, ClientRecord>,
                                                   swept: seq<DocumentRecord>, now: Time)
    requires ClientsKnown(docs, clients)
    requires |swept| == |docs|
    requires forall i :: 0 <= i < |docs| ==> swept[i] == Swept(docs[i], clients, now)
    ensures forall i :: 0 <= i < |swept| ==> !Stuck(swept[i], now)
    ensures CountStuck(swept, now) == 0
    decreases |docs|
  {
    if |docs| > 0 {
      var n := |docs| - 1;
      SweepLeavesNothingStuck(docs[..n], clients, swept[..n], now);
      assert swept[..n] == swept[..|swept| - 1];
    }
  }

  /**
   * A document left in 'processing' by a retried run at time `t` is reset by
   * a sweep after `t + 3600` and by no sweep up to then.
   */
  lemma RetriedDocumentIsSweptAfterAnHour(d: DocumentRecord, client: ClientRecord, pdfText: Option<string>,
                                          notify: NotifyOutcome, t: Time, now: Time)
    ensures var r := ProcessedRow(d, client, StorageClientError, pdfText, notify, t);
            Stuck(r, now) <==> now > t + OneHour
  {
  }

  // ---------------------------------------------------------------------------
  // archive_old_documents
  // ---------------------------------------------------------------------------

  const NinetyDays: int := 90 * 24 * 3600

  /** A client the archiving selects: case completed, last saved more than 90 days before `now`. */
  predicate ArchivableClient(c: ClientRecord, now: Time)
  {
    c.status == "completed" && c.updatedAt < now - NinetyDays
  }

  /** A `copy_to_archive` call: within one bucket, from the document's key to the archive key. */
  datatype CopyRequest = CopyRequest(sourceBucket: string, sourceKey: string, archiveBucket: string,
                                     archiveKey: string, region: string)

  /** `f"archive/{client.id}/{document.s3_key}"`. */
  function ArchiveKey(clientId: Id, key: string): (archiveKey: string)
    ensures "archive/" <= archiveKey
    ensures |key| <= |archiveKey| && archiveKey[|archiveKey| - |key|..] == key
  {
    var k := "archive/" + clientId + "/" + key;
    assert k == ("archive/" + clientId + "/") + key;
    k
  }

  /** The copy for one document, if it has a location to copy from. */
  function CopyFor(c: ClientRecord, d: DocumentRecord): (req: Option<CopyRequest>)
    ensures req.Some? <==> d.s3Bucket != "" && d.s3Key != ""
    ensures req.Some? ==>
              && req.value.sourceBucket == req.value.archiveBucket == d.s3Bucket
              && req.value.sourceKey == d.s3Key
              && req.value.region == d.s3Region
  {
    if d.s3Bucket != "" && d.s3Key != "" then
      Some(CopyRequest(d.s3Bucket, d.s3Key, d.s3Bucket, ArchiveKey(c.id, d.s3Key), d.s3Region))
    else None
  }

  /** The copies for one client's documents (`client.documents.all()`), in table order. */
  function ClientCopies(c: ClientRecord, docs: seq<DocumentRecord>): (reqs: seq<CopyRequest>)
    ensures |reqs| <= |docs|
    decreases |docs|
  {
    if |docs| == 0 then []
    else
      var d := docs[|docs| - 1];
      var more := if d.clientId == c.id then CopyFor(c, d) else None;
      ClientCopies(c, docs[..|docs| - 1]) + (if more.Some? then [more.value] else [])
  }

  /** All copies the job asks for: per selected client, its documents' copies. */
  function ArchivePlan(clients: seq<ClientRecord>, docs: seq<DocumentRecord>, now: Time): seq<CopyRequest>
    decreases |clients|
  {
    if |clients| == 0 then []
    else
      var c := clients[|clients| - 1];
      ArchivePlan(clients[..|clients| - 1], docs, now) + (if ArchivableClient(c, now) then ClientCopies(c, docs) else [])
  }

  /** How many of the requested copies succeed. */
  function CountSucceeded(reqs: seq<CopyRequest>, copy: CopyRequest -> bool): (n: nat)
    ensures n <= |reqs|
    decreases |reqs|
  {
    if |reqs| == 0 then 0
    else CountSucceeded(reqs[..|reqs| - 1], copy) + (if copy(reqs[|reqs| - 1]) then 1 else 0)
  }

  /** Success counts add up over concatenation. */
  lemma {:induction false} CountSucceededConcat(a: seq<CopyRequest>, b: seq<CopyRequest>, copy: CopyRequest -> bool)
    ensures CountSucceeded(a + b, copy) == CountSucceeded(a, copy) + CountSucceeded(b, copy)
    decreases |b|
  {
    if |b| == 0 {
      assert a + b == a;
    } else {
      var n := |b| - 1;
      CountSucceededConcat(a, b[..n], copy);
      assert (a + b)[..|a + b| - 1] == a + b[..n];
      assert (a + b)[|a + b| - 1] == b[n];
    }
  }

  /** The inner loop of `archive_old_documents()` for one selected client: its copies and how many succeeded. */
  method ArchiveClientDocuments(c: ClientRecord, docs: seq<DocumentRecord>, copy: CopyRequest -> bool)
    returns (requested: seq<CopyRequest>, archivedCount: nat)
    ensures requested == ClientCopies(c, docs)
    ensures archivedCount == CountSucceeded(requested, copy)
  {
    requested := [];
    archivedCount := 0;
    var j := 0;
    while j < |docs|
      invariant 0 <= j <= |docs|
      invariant requested == ClientCopies(c, docs[..j])
      invariant archivedCount == CountSucceeded(requested, copy)
    {
      assert docs[..j + 1][..j] == docs[..j];
      var d := docs[j];
      if d.clientId == c.id && d.s3Bucket != "" && d.s3Key != "" {
        var req := CopyRequest(d.s3Bucket, d.s3Key, d.s3Bucket, ArchiveKey(c.id, d.s3Key), d.s3Region);
        var success := copy(req);
        ghost var prev := requested;
        requested := requested + [req];
        assert requested[..|requested| - 1] == prev;
        if success {
          archivedCount := archivedCount + 1;
        }
      }
      j := j + 1;
    }
    assert docs[..j] == docs;
  }

  /** `archive_old_documents()`: the copies requested and the `archived_count` reported; `copy` is `copy_to_archive`'s answer. */
  method ArchiveOldDocuments(clients: seq<ClientRecord>, docs: seq<DocumentRecord>, copy: CopyRequest -> bool, now: Time)
    returns (requested: seq<CopyRequest>, archivedCount: nat)
    ensures requested == ArchivePlan(clients, docs, now)
    ensures archivedCount == CountSucceeded(requested, copy)
  {
    requested := [];
    archivedCount := 0;
    var i := 0;
    while i < |clients|
      invariant 0 <= i <= |clients|
      invariant requested == ArchivePlan(clients[..i], docs, now)
      invariant archivedCount == CountSucceeded(requested, copy)
    {
      assert clients[..i + 1][..i] == clients[..i];
      var c := clients[i];
      if c.status == "completed" && c.updatedAt < now - NinetyDays {
        var more, count := ArchiveClientDocuments(c, docs, copy);
        CountSucceededConcat(requested, more, copy);
        requested := requested + more;
        archivedCount := archivedCount + count;
      }
      i := i + 1;
    }
    assert clients[..i] == clients;
  }

  /** Every copy for a client comes from one of that client's documents that has a location, and goes to that client's archive key. */
  lemma {:induction false} ClientCopiesShape(c: ClientRecord, docs: seq<DocumentRecord>)
    ensures forall r :: r in ClientCopies(c, docs) ==>
              && r.archiveKey == ArchiveKey(c.id, r.sourceKey)
              && exists k :: 0 <= k < |docs| && docs[k].clientId == c.id && CopyFor(c, docs[k]) == Some(r)
    decreases |docs|
  {
    if |docs| > 0 {
      var n := |docs| - 1;
      ClientCopiesShape(c, docs[..n]);
      forall r | r in ClientCopies(c, docs)
        ensures exists k :: 0 <= k < |docs| && docs[k].clientId == c.id && CopyFor(c, docs[k]) == Some(r)
      {
        if r in ClientCopies(c, docs[..n]) {
          var k :| 0 <= k < n && docs[..n][k].clientId == c.id && CopyFor(c, docs[..n][k]) == Some(r);
          assert docs[k] == docs[..n][k];
        } else {
          assert docs[n].clientId == c.id && CopyFor(c, docs[n]) == Some(r);
        }
      }
    }
  }

  /** Only clients the job selects contribute copies. */
  lemma {:induction false} ArchivePlanOnlySelected(clients: seq<ClientRecord>, docs: seq<DocumentRecord>, now: Time)
    ensures forall r :: r in ArchivePlan(clients, docs, now) ==>
              exists i :: 0 <= i < |clients| && ArchivableClient(clients[i], now) && r in ClientCopies(clients[i], docs)
    decreases |clients|
  {
    if |clients| > 0 {
      var n := |clients| - 1;
      ArchivePlanOnlySelected(clients[..n], docs, now);
      forall r | r in ArchivePlan(clients, docs, now)
        ensures exists i :: 0 <= i < |clients| && ArchivableClient(clients[i], now) && r in ClientCopies(clients[i], docs)
      {
        if r in ArchivePlan(clients[..n], docs, now) {
          var i :| 0 <= i < n && ArchivableClient(clients[..n][i], now) && r in ClientCopies(clients[..n][i], docs);
          assert clients[i] == clients[..n][i];
        } else {
          assert ArchivableClient(clients[n], now) && r in ClientCopies(clients[n], docs);
        }
      }
    }
  }

  /** No selected client, no copy: then `archived_count` is 0. */
  lemma {:induction false} NothingSelectedNothingArchived(clients: seq<ClientRecord>, docs: seq<DocumentRecord>,
                                                          copy: CopyRequest -> bool, now: Time)
    requires forall i :: 0 <= i < |clients| ==> !ArchivableClient(clients[i], now)
    ensures ArchivePlan(clients, docs, now) == []
    ensures CountSucceeded(ArchivePlan(clients, docs, now), copy) == 0
    decreases |clients|
  {
    if |clients| > 0 {
      NothingSelectedNothingArchived(clients[..|clients| - 1], docs, copy, now);
    }
  }

  /** The archive copy keeps the object's file name: the last '/'-segment of both keys is the same. */
  lemma ArchiveKeyKeepsFileName(clientId: Id, key: string)
    ensures LastSegment(ArchiveKey(clientId, key), '/') == LastSegment(key, '/')
  {
    assert ArchiveKey(clientId, key) == ("archive/" + clientId) + ['/'] + key;
    LastSegmentAfterSep("archive/" + clientId, '/', key);
  }
}
