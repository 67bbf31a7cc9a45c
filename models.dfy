/**
 * The two database entities of the document store and their behaviour:
 * clients (value records: nothing in this core updates one in place) and
 * documents (an object whose state methods assign fields and then save).
 *
 * A `Document` object holds the fields of one Python `Document` instance as it
 * is in memory; `Row()` is that state as a value.  `save()` reruns the file
 * metadata capture and stamps `updated_at`.  Times are whole seconds, and the
 * moment `timezone.now()` would return is passed in as `now`.
 */
module Models {
  import opened Wrappers
  import opened StorageBackends

  /** Primary keys (UUIDs) and user ids, as text. */
  type Id = string

  /** A moment in whole seconds. */
  type Time = int

  // ---------------------------------------------------------------------------
  // Choice sets.  Django does not enforce `choices` on save, so the fields
  // below stay plain strings and these lists say which values are meant.
  // ---------------------------------------------------------------------------

  const ClientStatusChoices: seq<string> :=
    ["inquiry", "documents", "assessment", "submitted", "approved", "rejected", "completed"]

  const RegionChoices: seq<string> := ["AU", "IN"]

  const DocumentTypeChoices: seq<string> :=
    ["passport", "photo", "birth_certificate", "marriage_certificate",
     "bank_statement", "tax_return", "financial_proof",
     "degree", "transcript", "english_test",
     "employment_letter", "payslip", "resume", "reference_letter",
     "application_form", "visa_application", "police_clearance", "medical",
     "other"]

  const DocumentStatusChoices: seq<string> :=
    ["pending", "uploaded", "processing", "processed", "verified", "rejected"]

  const AccessActionChoices: seq<string> := ["view", "download", "upload", "delete", "update"]

  const DefaultClientStatus: string := "inquiry"
  const DefaultRegion: string := "AU"
  const DefaultDocumentStatus: string := "uploaded"

  /** The choice lists hold no value twice. */
  lemma ChoiceListsDistinct()
    ensures |ClientStatusChoices| == 7 && |DocumentStatusChoices| == 6 && |DocumentTypeChoices| == 19
    ensures forall i, j :: 0 <= i < j < |ClientStatusChoices| ==> ClientStatusChoices[i] != ClientStatusChoices[j]
    ensures forall i, j :: 0 <= i < j < |DocumentStatusChoices| ==> DocumentStatusChoices[i] != DocumentStatusChoices[j]
    ensures forall i, j :: 0 <= i < j < |DocumentTypeChoices| ==> DocumentTypeChoices[i] != DocumentTypeChoices[j]
  {
    var cs := ClientStatusChoices;
    forall i, j | 0 <= i < j < |cs|
      ensures cs[i] != cs[j]
    {
      assert |cs[i]| != |cs[j]| || cs[i][0] != cs[j][0];
    }
    var st := DocumentStatusChoices;
    forall i, j | 0 <= i < j < |st|
      ensures st[i] != st[j]
    {
      assert |st[i]| != |st[j]| || st[i][0] != st[j][0];
    }
    var ty := DocumentTypeChoices;
    forall i, j | 0 <= i < j < |ty|
      ensures ty[i] != ty[j]
    {
      assert |ty[i]| != |ty[j]| || ty[i][0] != ty[j][0] || ty[i][|ty[i]| - 1] != ty[j][|ty[j]| - 1];
    }
  }

  // ---------------------------------------------------------------------------
  // Clients
  // ---------------------------------------------------------------------------

  /** The client fields this core reads. */
  datatype ClientRecord = ClientRecord(
    id: Id,
    status: string,
    region: string,
    createdAt: Time,
    updatedAt: Time,
    assignedTo: Option<Id>)

  /** `Client.objects.create(...)`: the status starts at 'inquiry' and the region defaults to 'AU'. */
  function NewClient(id: Id, region: Option<string>, assignedTo: Option<Id>, now: Time): (c: ClientRecord)
    ensures c.status == "inquiry" && c.status == ClientStatusChoices[0]
    ensures region.None? ==> c.region == "AU"
    ensures region.Some? ==> c.region == region.value
    ensures c.createdAt == c.updatedAt == now
  {
    ClientRecord(id, DefaultClientStatus, match region case None => DefaultRegion case Some(r) => r, now, now, assignedTo)
  }

  /** `Client.get_storage_backend()`: exactly the region 'IN' (case-sensitive) goes to India. */
  function ClientStorageBackend(c: ClientRecord): (b: Backend)
    ensures b == IndiaMedia <==> c.region == "IN"
    ensures b == AustraliaMedia <==> c.region != "IN"
  {
    if c.region == "IN" then IndiaMedia else AustraliaMedia
  }

  /** On the two region choices the client's rule and the factory agree. */
  lemma ClientAndFactoryAgreeOnChoices(c: ClientRecord)
    requires c.region in RegionChoices
    ensures ClientStorageBackend(c) == GetStorageBackend(c.region)
  {
    if c.region == "AU" {
      assert Strings.Lower("AU") == "au";
    } else {
      assert Strings.Lower("IN") == "in";
    }
  }

  /** Off the choices they part: a client whose region is stored as 'in' is kept in Australia, though the factory says India. */
  lemma ClientAndFactoryDisagreeOnLowerCase(c: ClientRecord)
    requires c.region == "in"
    ensures ClientStorageBackend(c) == AustraliaMedia
    ensures GetStorageBackend(c.region) == IndiaMedia
  {
    assert Strings.Lower("in") == "in";
  }

  /** A new client with the default region is stored in Sydney, under "documents/au". */
  lemma NewClientStoredInAustralia(id: Id, assignedTo: Option<Id>, now: Time)
    ensures var b := ClientStorageBackend(NewClient(id, None, assignedTo, now));
            BucketName(b) == "migration-zone-docs-au" && RegionName(b) == "ap-southeast-2" && Location(b) == "documents/au"
  {
  }

  // ---------------------------------------------------------------------------
  // Documents as values
  // ---------------------------------------------------------------------------

  /** JSON values as `ai_extracted_data` holds them. */
  datatype Json = JStr(s: string) | JInt(i: int) | JBool(b: bool) | JTime(t: Time)

  type JsonObject = map<string, Json>

  /** The uploaded file: its storage name and size.  An empty name is the falsy "no file". */
  datatype FileRef = FileRef(name: string, size: nat)

  const NoFile: FileRef := FileRef("", 0)

  /** One document as its fields stand. */
  datatype DocumentRecord = DocumentRecord(
    id: Id,
    clientId: Id,
    documentType: string,
    title: string,
    description: Option<string>,
    file: FileRef,
    fileSize: Option<nat>,
    fileType: string,
    originalFilename: string,
    s3Bucket: string,
    s3Key: string,
    s3Region: string,
    status: string,
    aiExtractedData: Option<JsonObject>,
    ocrText: Option<string>,
    verifiedBy: Option<Id>,
    verifiedAt: Option<Time>,
    verificationNotes: Option<string>,
    uploadedAt: Time,
    processedAt: Option<Time>,
    updatedAt: Time,
    uploadedBy: Option<Id>)

  /** Python truthiness of an optional dict argument: present and non-empty. */
  predicate TruthyData(data: Option<JsonObject>)
  {
    data.Some? && |data.value| > 0
  }

  /** Python truthiness of an optional string argument: present and non-empty. */
  predicate TruthyText(text: Option<string>)
  {
    text.Some? && |text.value| > 0
  }

  /** The file metadata fields hold what a save with this file and this client would capture. */
  predicate Captured(d: DocumentRecord, client: ClientRecord)
  {
    var b := ClientStorageBackend(client);
    d.file.name != "" ==>
      && d.fileSize == Some(d.file.size)
      && d.originalFilename == d.file.name
      && d.s3Key == d.file.name
      && d.s3Bucket == BucketName(b)
      && d.s3Region == RegionName(b)
  }

  /**
   * `Document.save()`: with a file, capture its size and name, and take the
   * bucket and region from the client's backend; then stamp `updated_at`.
   */
  function Saved(d: DocumentRecord, client: ClientRecord, now: Time): (r: DocumentRecord)
    ensures Captured(r, client)
    ensures r.updatedAt == now
    ensures r.status == d.status && r.file == d.file
  {
    var b := ClientStorageBackend(client);
    var c := if d.file.name != "" then
               d.(fileSize := Some(d.file.size), originalFilename := d.file.name, s3Key := d.file.name,
                  s3Bucket := BucketName(b), s3Region := RegionName(b))
             else d;
    c.(updatedAt := now)
  }

  /** The fields a save may touch are the file metadata and `updated_at`; everything else it keeps. */
  predicate SameExceptCapture(d: DocumentRecord, e: DocumentRecord)
  {
    e == d.(fileSize := e.fileSize, originalFilename := e.originalFilename, s3Key := e.s3Key,
            s3Bucket := e.s3Bucket, s3Region := e.s3Region, updatedAt := e.updatedAt)
  }

  /** A save changes only the captured metadata and the time stamp; on a row already captured it changes only the time stamp. */
  lemma SaveFrame(d: DocumentRecord, client: ClientRecord, now: Time)
    ensures SameExceptCapture(d, Saved(d, client, now))
    ensures Captured(d, client) ==> Saved(d, client, now) == d.(updatedAt := now)
  {
  }

  /** Without a file a save leaves the metadata alone: bucket and key stay as they were. */
  lemma SaveWithoutFile(d: DocumentRecord, client: ClientRecord, now: Time)
    requires d.file.name == ""
    ensures Saved(d, client, now) == d.(updatedAt := now)
  {
  }

  /**
   * `Document.objects.create(...)`: defaults (status 'uploaded', empty S3
   * fields), a save that captures the file as the client uploaded it, and
   * then the upload itself, after which the file carries the name the
   * storage gave it (`storedName`, built by `client_document_path`).
   */
  function CreatedDocument(id: Id, client: ClientRecord, documentType: string, title: string,
                           description: Option<string>, file: FileRef, uploadedBy: Option<Id>,
                           storedName: string, now: Time): (d: DocumentRecord)
    ensures d.status == "uploaded" && d.status == DocumentStatusChoices[1]
    ensures d.clientId == client.id && d.documentType == documentType && d.title == title
    ensures d.processedAt.None? && d.verifiedAt.None? && d.verifiedBy.None?
    ensures d.aiExtractedData.None? && d.ocrText.None? && d.fileType == ""
    ensures d.uploadedAt == d.updatedAt == now
    ensures file.name != "" ==> d.s3Key == file.name && d.originalFilename == file.name && d.fileSize == Some(file.size)
    ensures file.name != "" ==> d.file == FileRef(storedName, file.size)
    ensures file.name == "" ==> d.s3Key == "" && d.s3Bucket == "" && d.fileSize.None?
  {
    var initial := DocumentRecord(id, client.id, documentType, title, description, file, None, "", "", "", "", "",
                                DefaultDocumentStatus, None, None, None, None, None, now, None, now, uploadedBy);
    var saved := Saved(initial, client, now);
    if file.name != "" then saved.(file := FileRef(storedName, file.size)) else saved
  }

  /**
   * The key captured at creation is the name the client uploaded, not the
   * storage key the upload went to: the two differ whenever the storage
   * renamed the file.  A later save captures the storage name.
   */
  lemma CreatedKeyIsUploadName(id: Id, client: ClientRecord, documentType: string, title: string,
                               description: Option<string>, file: FileRef, uploadedBy: Option<Id>,
                               storedName: string, now: Time, later: Time)
    requires file.name != "" && storedName != "" && storedName != file.name
    ensures var d := CreatedDocument(id, client, documentType, title, description, file, uploadedBy, storedName, now);
            && d.s3Key != d.file.name
            && !Captured(d, client)
            && Saved(d, client, later).s3Key == storedName
  {
  }

  /** `mark_as_processing()` on a row: status 'processing', then save. */
  function MarkedProcessing(d: DocumentRecord, client: ClientRecord, now: Time): (r: DocumentRecord)
    ensures r.status == "processing"
  {
    Saved(d.(status := "processing"), client, now)
  }

  /**
   * `mark_as_processed(extracted_data, ocr_text)` on a row: status
   * 'processed', `processed_at` now, the data and text replaced only when the
   * arguments are truthy, then save.
   */
  function MarkedProcessed(d: DocumentRecord, client: ClientRecord, extractedData: Option<JsonObject>,
                           ocrText: Option<string>, now: Time): (r: DocumentRecord)
    ensures r.status == "processed" && r.processedAt == Some(now)
    ensures r.aiExtractedData == (if TruthyData(extractedData) then extractedData else d.aiExtractedData)
    ensures r.ocrText == (if TruthyText(ocrText) then ocrText else d.ocrText)
  {
    Saved(ProcessedFields(d, extractedData, ocrText, now), client, now)
  }

  /** The assignments `mark_as_processed` makes before it saves. */
  function ProcessedFields(d: DocumentRecord, extractedData: Option<JsonObject>, ocrText: Option<string>,
                           now: Time): DocumentRecord
  {
    var e1 := d.(status := "processed", processedAt := Some(now));
    var e2 := if TruthyData(extractedData) then e1.(aiExtractedData := extractedData) else e1;
    if TruthyText(ocrText) then e2.(ocrText := ocrText) else e2
  }

  /**
   * `verify(user, notes)` on a row: status 'verified', the verifier and the
   * moment recorded, the notes replaced only when truthy, then save.
   */
  function Verified(d: DocumentRecord, client: ClientRecord, user: Id, notes: Option<string>, now: Time): (r: DocumentRecord)
    ensures r.status == "verified" && r.verifiedBy == Some(user) && r.verifiedAt == Some(now)
    ensures r.verificationNotes == (if TruthyText(notes) then notes else d.verificationNotes)
  {
    Saved(VerifiedFields(d, user, notes, now), client, now)
  }

  /** The assignments `verify` makes before it saves. */
  function VerifiedFields(d: DocumentRecord, user: Id, notes: Option<string>, now: Time): DocumentRecord
  {
    var e1 := d.(status := "verified", verifiedBy := Some(user), verifiedAt := Some(now));
    if TruthyText(notes) then e1.(verificationNotes := notes) else e1
  }

  /** On a captured row, marking as processing changes the status and the time stamp and nothing else. */
  lemma MarkProcessingFrame(d: DocumentRecord, client: ClientRecord, now: Time)
    requires Captured(d, client)
    ensures MarkedProcessing(d, client, now) == d.(status := "processing", updatedAt := now)
  {
    SaveFrame(d.(status := "processing"), client, now);
  }

  /** On a captured row, marking as processed changes only the five fields its save lists. */
  lemma MarkProcessedFrame(d: DocumentRecord, client: ClientRecord, extractedData: Option<JsonObject>,
                           ocrText: Option<string>, now: Time)
    requires Captured(d, client)
    ensures var r := MarkedProcessed(d, client, extractedData, ocrText, now);
            r == d.(status := r.status, processedAt := r.processedAt, aiExtractedData := r.aiExtractedData,
                    ocrText := r.ocrText, updatedAt := r.updatedAt)
  {
    SaveFrame(ProcessedFields(d, extractedData, ocrText, now), client, now);
  }

  /** On a captured row, verifying changes only the five fields its save lists. */
  lemma VerifyFrame(d: DocumentRecord, client: ClientRecord, user: Id, notes: Option<string>, now: Time)
    requires Captured(d, client)
    ensures var r := Verified(d, client, user, notes, now);
            r == d.(status := r.status, verifiedBy := r.verifiedBy, verifiedAt := r.verifiedAt,
                    verificationNotes := r.verificationNotes, updatedAt := r.updatedAt)
  {
    SaveFrame(VerifiedFields(d, user, notes, now), client, now);
  }

  /** An empty dict or empty text passed to `mark_as_processed` leaves the earlier data and text in place. */
  lemma FalsyArgumentsKeepOldData(d: DocumentRecord, client: ClientRecord, now: Time)
    ensures var r := MarkedProcessed(d, client, Some(map[]), Some(""), now);
            r.aiExtractedData == d.aiExtractedData && r.ocrText == d.ocrText
  {
  }

  // ---------------------------------------------------------------------------
  // The status lifecycle as the code drives it
  // ---------------------------------------------------------------------------

  /** Every way the code changes a document's status. */
  datatype LifecycleStep =
    | StartProcessing            // mark_as_processing
    | FinishProcessing           // mark_as_processed
    | VerifyByOfficer            // verify
    | ResetToUploaded            // the error path of process_document, and the stuck-document sweep

  /** The status after one step: it depends on the step alone, as no step looks at the status it starts from. */
  function Step(status: string, step: LifecycleStep): (next: string)
    ensures next in DocumentStatusChoices
    ensures next != "pending" && next != "rejected"
  {
    match step
    case StartProcessing => "processing"
    case FinishProcessing => "processed"
    case VerifyByOfficer => "verified"
    case ResetToUploaded => "uploaded"
  }

  function Run(status: string, steps: seq<LifecycleStep>): string
    decreases |steps|
  {
    if |steps| == 0 then status else Run(Step(status, steps[0]), steps[1..])
  }

  /** There is no transition guard: after a non-empty run the status is fixed by the last step, whatever it started from. */
  lemma {:induction false} LastStepDecides(s1: string, s2: string, steps: seq<LifecycleStep>)
    requires |steps| > 0
    ensures Run(s1, steps) == Run(s2, steps) == Step("", steps[|steps| - 1])
    decreases |steps|
  {
    if |steps| > 1 {
      LastStepDecides(Step(s1, steps[0]), Step(s2, steps[0]), steps[1..]);
    }
  }

  /**
   * From a new document no run of the code's steps ever reaches 'pending' or
   * 'rejected': the code sets only four of the six statuses.
   */
  lemma {:induction false} ReachableStatuses(steps: seq<LifecycleStep>)
    ensures Run(DefaultDocumentStatus, steps) in ["uploaded", "processing", "processed", "verified"]
  {
    if |steps| > 0 {
      LastStepDecides(DefaultDocumentStatus, "", steps);
    }
  }

  /** Verifying works from every status, including 'rejected' and 'pending'. */
  lemma VerifyFromAnyStatus(d: DocumentRecord, client: ClientRecord, user: Id, notes: Option<string>, now: Time)
    ensures Verified(d, client, user, notes, now).status == "verified"
    ensures forall s :: Step(s, VerifyByOfficer) == "verified"
  {
  }

  // ---------------------------------------------------------------------------
  // Documents as objects
  // ---------------------------------------------------------------------------

  /** A download link request for `generate_presigned_url`. */
  datatype PresignRequest = PresignRequest(bucket: string, key: string, expiration: int, region: string)

  /** `get_download_url` on a row: a link is asked for only when both bucket and key are set. */
  function DownloadUrl(d: DocumentRecord, expiration: int, presign: PresignRequest -> Option<string>): (url: Option<string>)
    ensures d.s3Bucket == "" || d.s3Key == "" ==> url.None?
    ensures d.s3Bucket != "" && d.s3Key != "" ==> url == presign(PresignRequest(d.s3Bucket, d.s3Key, expiration, d.s3Region))
  {
    if d.s3Bucket != "" && d.s3Key != "" then presign(PresignRequest(d.s3Bucket, d.s3Key, expiration, d.s3Region)) else None
  }

  /** A document created without a file never yields a download link. */
  lemma NoFileNoDownload(id: Id, client: ClientRecord, documentType: string, title: string,
                         description: Option<string>, uploadedBy: Option<Id>, storedName: string, now: Time,
                         expiration: int, presign: PresignRequest -> Option<string>)
    ensures DownloadUrl(CreatedDocument(id, client, documentType, title, description, NoFile, uploadedBy, storedName, now),
                        expiration, presign).None?
  {
  }

  /**
   * One `Document` instance in memory.  The fields no operation of this core
   * assigns after creation (identity, client, type, title, description, file
   * type, upload time and uploader) are constants.
   */
  class Document {
    const id: Id
    const client: ClientRecord
    const documentType: string
    const title: string
    const description: Option<string>
    var file: FileRef
    var fileSize: Option<nat>
    const fileType: string
    var originalFilename: string
    var s3Bucket: string
    var s3Key: string
    var s3Region: string
    var status: string
    var aiExtractedData: Option<JsonObject>
    var ocrText: Option<string>
    var verifiedBy: Option<Id>
    var verifiedAt: Option<Time>
    var verificationNotes: Option<string>
    const uploadedAt: Time
    var processedAt: Option<Time>
    var updatedAt: Time
    const uploadedBy: Option<Id>

    /** The object's state as a value. */
    function Row(): DocumentRecord
      reads this
    {
      DocumentRecord(id, client.id, documentType, title, description, file, fileSize, fileType, originalFilename,
                     s3Bucket, s3Key, s3Region, status, aiExtractedData, ocrText, verifiedBy, verifiedAt,
                     verificationNotes, uploadedAt, processedAt, updatedAt, uploadedBy)
    }

    /** `Document.objects.create(...)`. */
    constructor (id: Id, client: ClientRecord, documentType: string, title: string, description: Option<string>,
                 file: FileRef, uploadedBy: Option<Id>, storedName: string, now: Time)
      ensures Row() == CreatedDocument(id, client, documentType, title, description, file, uploadedBy, storedName, now)
      ensures this.client == client
    {
      this.id := id;
      this.client := client;
      this.documentType := documentType;
      this.title := title;
      this.description := description;
      this.file := file;
      fileSize := None;
      fileType := "";
      originalFilename := "";
      s3Bucket := "";
      s3Key := "";
      s3Region := "";
      status := DefaultDocumentStatus;
      aiExtractedData := None;
      ocrText := None;
      verifiedBy := None;
      verifiedAt := None;
      verificationNotes := None;
      uploadedAt := now;
      processedAt := None;
      updatedAt := now;
      this.uploadedBy := uploadedBy;
      new;
      Save(now);
      if file.name != "" {
        this.file := FileRef(storedName, file.size);
      }
    }

    /** A copy of a stored row, as `Document.objects.get` loads it. */
    constructor Load(d: DocumentRecord, client: ClientRecord)
      requires d.clientId == client.id
      ensures Row() == d && this.client == client
    {
      id := d.id;
      this.client := client;
      documentType := d.documentType;
      title := d.title;
      description := d.description;
      file := d.file;
      fileSize := d.fileSize;
      fileType := d.fileType;
      originalFilename := d.originalFilename;
      s3Bucket := d.s3Bucket;
      s3Key := d.s3Key;
      s3Region := d.s3Region;
      status := d.status;
      aiExtractedData := d.aiExtractedData;
      ocrText := d.ocrText;
      verifiedBy := d.verifiedBy;
      verifiedAt := d.verifiedAt;
      verificationNotes := d.verificationNotes;
      uploadedAt := d.uploadedAt;
      processedAt := d.processedAt;
      updatedAt := d.updatedAt;
      uploadedBy := d.uploadedBy;
    }

    /** `save()`: the metadata capture, then `updated_at`. */
    method Save(now: Time)
      modifies this
      ensures Row() == Saved(old(Row()), client, now)
    {
      ghost var before := Row();
      if file.name != "" {
        fileSize := Some(file.size);
        originalFilename := file.name;
        var backend := ClientStorageBackend(client);
        s3Key := file.name;
        s3Bucket := BucketName(backend);
        s3Region := RegionName(backend);
        assert Row() == before.(fileSize := Some(file.size), originalFilename := file.name, s3Key := file.name,
                                s3Bucket := BucketName(backend), s3Region := RegionName(backend));
      }
      ghost var captured := Row();
      updatedAt := now;
      assert Row() == captured.(updatedAt := now);
    }

    /** `mark_as_processing()`. */
    method MarkAsProcessing(now: Time)
      modifies this
      ensures Row() == MarkedProcessing(old(Row()), client, now)
    {
      status := "processing";
      Save(now);
    }

    /** `mark_as_processed(extracted_data, ocr_text)`. */
    method MarkAsProcessed(extractedData: Option<JsonObject>, ocrText: Option<string>, now: Time)
      modifies this
      ensures Row() == MarkedProcessed(old(Row()), client, extractedData, ocrText, now)
    {
      ghost var before := Row();
      status := "processed";
      processedAt := Some(now);
      ghost var stamped := Row();
      assert stamped == before.(status := "processed", processedAt := Some(now));
      if TruthyData(extractedData) {
        aiExtractedData := extractedData;
      }
      if TruthyText(ocrText) {
        this.ocrText := ocrText;
      }
      assert Row() == ProcessedFields(before, extractedData, ocrText, now);
      Save(now);
    }

    /** `verify(user, notes)`. */
    method Verify(user: Id, notes: Option<string>, now: Time)
      modifies this
      ensures Row() == Verified(old(Row()), client, user, notes, now)
    {
      ghost var before := Row();
      status := "verified";
      verifiedBy := Some(user);
      verifiedAt := Some(now);
      if TruthyText(notes) {
        verificationNotes := notes;
      }
      assert Row() == VerifiedFields(before, user, notes, now);
      Save(now);
    }

    /** `get_download_url(expiration)`. */
    function GetDownloadUrl(expiration: int, presign: PresignRequest -> Option<string>): (url: Option<string>)
      reads this
      ensures s3Bucket == "" || s3Key == "" ==> url.None?
      ensures url == DownloadUrl(Row(), expiration, presign)
    {
      if s3Bucket != "" && s3Key != "" then presign(PresignRequest(s3Bucket, s3Key, expiration, s3Region)) else None
    }
  }
}
