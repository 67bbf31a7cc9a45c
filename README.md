# AWS S3 document storage — a Dafny model of its core

The system is a Django add-on for a migration agency. It stores client
documents in S3 buckets chosen by the client's region. It keeps one metadata
row per document and moves that row through a small status lifecycle. The
lifecycle runs `uploaded`, then `processing`, then `processed`, then
`verified`. A REST API lists, deletes, downloads and bulk-uploads documents
and writes an access log. Celery jobs process documents, sweep stuck ones and
archive completed cases.

This project models the parts of that system that compute something:

- `validators.dfy`: the upload checks and `sanitize_filename`.
- `utils.dfy`: the object key `organize_document_path` builds.
- `storage_backends.dfy`: the three storage backends and the region factory.
- `models.dfy`: the client and document entities. `Document` is a class whose
  methods update its fields and then save, as the Python methods do. Each
  method is proved against a function on the document's field values.
- `tasks.dfy`: the background jobs. This covers type-to-processor dispatch,
  the five processors, the `process_document` status flow,
  `notify_case_officer`, `cleanup_temp_files` and `archive_old_documents`.
- `views.dfy`: the list filters, `statistics`, the access log with
  `_get_client_ip`, `destroy`, `download` and `bulk_upload`.
- `strings.dfy` and `wrappers.dfy`: Python's `split`, `in` and `lower`, and
  an `Option` type.

Tables are sequences of records in query order. Everything outside the
program is passed in as a parameter:

- the current time;
- the MIME type python-magic detects;
- the text PyPDF2 extracts;
- the presigned URL S3 returns;
- whether an archive copy succeeds;
- whether the access-log write succeeds;
- the ids the database assigns;
- the names the storage gives uploads.

Behaviours of the code worth noting, all of which the model keeps:

- Status changes have no guard. `verify` works from any status, and so do the
  other two state methods.
- The document status has six choices, `pending` and `rejected` included.
  No code path sets either of them.
- `bulk_upload` checks neither the 50 MiB limit nor the file type: the
  serializer only rejects unnamed and empty files, and `objects.create` runs
  no field validators. Its creates run outside a transaction, so when one
  raises, the documents created before it stay and the answer is a server
  error.
- The access log is not append-only. The log's foreign key cascades, so
  `destroy` removes the `delete` entry it has just written, together with
  every earlier entry for that document.
- A failed processing job resets the status to `uploaded`. A failed
  notification does the same, after the extraction has already been stored.
- `file_type` is never assigned anywhere in the code, so the processors
  never extract text from a created document.

## Model

| member | source | states |
|---|---|---|
| Strings.LastSegmentShape | s3_storage/validators.py:80 | `split(sep)[-1]` is a suffix of the text, holds no separator, and is the whole text or follows a separator |
| Strings.FirstSegmentShape | s3_storage/views.py:303 | `split(',')[0]` is a prefix of the text, holds no ',', and is the whole text or is followed by a ',' |
| Validators.ValidateFileSize | s3_storage/validators.py:23-31 | fails exactly when the size exceeds the limit, with the limit in the error |
| Validators.DefaultSizeLimit | s3_storage/validators.py:20-27 | the default limit is 50 MiB; a file of exactly that size passes, one byte more fails |
| Validators.SizeCheckMonotone | s3_storage/validators.py:27 | a smaller file passes whenever a larger one does |
| Validators.ValidateFileType | s3_storage/validators.py:46-53 | the detected MIME type passes exactly when it is a key of the allow-list; otherwise the error names it and the allowed types |
| Validators.AllowListIsFiveTypes | s3_storage/validators.py:12-18 | the allow-list has exactly five MIME keys, and those keys are the only types that pass |
| Validators.FirstContained | s3_storage/validators.py:62-67 | returns the first fragment, in list order, that occurs in the name; none exactly when no fragment occurs |
| Validators.ValidateFilename | s3_storage/validators.py:56-70 | passes exactly when no dangerous fragment occurs and the name is non-empty and does not start with '.'; otherwise it reports the first fragment in list order, or "Invalid filename" when no fragment occurs |
| Validators.KeepSafeChars | s3_storage/validators.py:86 | keeps only word characters, '-' and '.', and leaves a string made only of them unchanged |
| Validators.KeepSafeCharsCounts | s3_storage/validators.py:86 | every safe character keeps its count, and every other character is dropped |
| Validators.KeepSafeCharsAppend | s3_storage/validators.py:86 | the substitution works character by character, so the kept characters stay in their order |
| Validators.KeepSafeCharsDropsUnsafe | s3_storage/validators.py:86 | a text made only of unsafe characters is removed entirely |
| Validators.SanitizeFilename | s3_storage/validators.py:73-92 | the result holds only word characters, '-' and '.', and does not start with '.' |
| Validators.PrefixedNameSafe | s3_storage/validators.py:89-90 | putting "file" in front of a safe name keeps it safe |
| Validators.SanitizedHasNoSeparatorOrSpace | s3_storage/validators.py:80-86 | the result has no '/', no '\\' and no space |
| Validators.BaseNameIgnoresDirectory | s3_storage/validators.py:80 | everything up to the last '/' or '\\' is dropped |
| Validators.SanitizeIgnoresDirectory | s3_storage/validators.py:80 | a directory in front of the name does not change the sanitised name |
| Validators.SanitizeTurnsSpacesIntoUnderscores | s3_storage/validators.py:73-92 | a bare name whose only unsafe characters are spaces comes back with each space as '_' and every other character in place, behind "file" when it starts with '.' |
| Validators.SanitizeKeepsSafeNames | s3_storage/validators.py:73-92 | a safe name that does not start with '.' comes back unchanged |
| Validators.SanitizeIdempotent | s3_storage/validators.py:73-92 | sanitising twice gives what sanitising once gives |
| Validators.SafeNameHasNoUnsafeFragment | s3_storage/validators.py:60 | a safe name contains none of the dangerous fragments except '..' |
| Validators.SanitizedNameValidation | s3_storage/validators.py:56-92 | a sanitised name passes validation, or fails only on '..' it contains, or only because it is empty |
| Validators.SanitizedNameKeepsDoubleDot | s3_storage/validators.py:60-67 | "a..b" is left as it is by sanitising and is rejected for '..' |
| Validators.SanitizeDropsUnsafeName | s3_storage/validators.py:73-92 | a bare name made only of characters the substitution removes, spaces excepted, sanitises to the empty name |
| Validators.EmptyNameInvalid | s3_storage/validators.py:69-70 | the empty name is rejected as an invalid filename |
| Validators.SanitizedNameCanBeEmpty | s3_storage/validators.py:69-70 | "***" sanitises to the empty name, which is rejected as an invalid filename |
| Utils.PadDigits | s3_storage/utils.py:158 | a zero-padded field has exactly the field's width and only digits |
| Utils.PadDigitsRoundTrip | s3_storage/utils.py:158 | reading a padded field back gives the number that was written |
| Utils.FormatTimestamp | s3_storage/utils.py:158 | the timestamp is 15 characters: 8 digits, '_', 6 digits |
| Utils.TimestampRoundTrip | s3_storage/utils.py:158 | the timestamp can be read back into the moment it was written for |
| Utils.TimestampHasNoSlash | s3_storage/utils.py:158 | a timestamp holds no '/' |
| Utils.FileSegment | s3_storage/utils.py:157-160 | the last part of the key has no '/' and no '.' right after the timestamp's underscore |
| Utils.FileSegmentRoundTrip | s3_storage/utils.py:157-160 | the last part gives back the upload moment from its first 15 characters and the sanitised name after its 17th |
| Utils.OrganizeDocumentPath | s3_storage/utils.py:143-160 | the key starts with "clients/" and never ends with '/' |
| Utils.DocumentPathIsJoin | s3_storage/utils.py:160 | the key is "clients", the client id, the type and the file part joined by '/' |
| Utils.DocumentPathSegments | s3_storage/utils.py:160 | with a '/'-free client id and type, the key splits on '/' into exactly those four parts |
| Utils.DocumentPathFileSegment | s3_storage/utils.py:157-160 | whatever the id and type hold, the key's last '/'-segment is the timestamped file name |
| StorageBackends.GetStorageBackend | s3_storage/storage_backends.py:65-77 | India exactly when the lower-cased region is "in", Australia otherwise |
| StorageBackends.DefaultRegionIsAustralia | s3_storage/storage_backends.py:65 | the default argument "au" selects Australia |
| StorageBackends.IndiaSpellings | s3_storage/storage_backends.py:75 | exactly "in", "In", "iN" and "IN" select India |
| StorageBackends.FactoryNeverProcessed | s3_storage/storage_backends.py:75-77 | the factory never returns the processed-data backend |
| StorageBackends.OverwriteOnlyForProcessed | s3_storage/storage_backends.py:17-57 | only processed data may overwrite; the regional backends forbid it and encrypt with AES256 |
| StorageBackends.ProcessedDataSeparated | s3_storage/storage_backends.py:55-62 | processed data shares Australia's bucket and region under a prefix that neither regional prefix overlaps |
| StorageBackends.BucketNamesNameTheirRegion | tests/test_models.py:59-63 | the Australian bucket name contains "au", the Indian one "in", and they differ |
| Models.ChoiceListsDistinct | s3_storage/models.py:99-138 | 7 client statuses, 6 document statuses and 19 document types, each list without repeats |
| Models.NewClient | s3_storage/models.py:54-57 | a new client starts as "inquiry", in region "AU" unless one is given |
| Models.ClientStorageBackend | s3_storage/models.py:77-81 | India exactly when the region is "IN", case-sensitively; Australia otherwise |
| Models.ClientAndFactoryAgreeOnChoices | s3_storage/models.py:77-81 | for the two region choices, the client method and the factory pick the same backend |
| Models.ClientAndFactoryDisagreeOnLowerCase | s3_storage/models.py:79 | for region "in", the client method picks Australia and the factory picks India |
| Models.NewClientStoredInAustralia | s3_storage/models.py:57 | a client with the default region is stored in the Sydney bucket under "documents/au" |
| Models.Saved | s3_storage/models.py:194-210 | after a save the file metadata is captured from the file and the client's backend, and the status and file are untouched |
| Models.SaveFrame | s3_storage/models.py:196-208 | a save changes only the captured fields and `updated_at`; a captured document only gets its timestamp |
| Models.SaveWithoutFile | s3_storage/models.py:196 | without a file, a save only stamps `updated_at` |
| Models.CreatedDocument | s3_storage/models.py:140-210 | a created document is "uploaded" with nothing processed or verified; with a file, the key, size and original name come from the upload name |
| Models.CreatedKeyIsUploadName | s3_storage/models.py:205-208 | the key recorded at creation is the upload name, not the stored name; the next save replaces it with the stored name |
| Models.MarkedProcessing | s3_storage/models.py:225-228 | the status becomes "processing" |
| Models.MarkProcessingFrame | s3_storage/models.py:225-228 | for a captured document only the status and `updated_at` change |
| Models.MarkedProcessed | s3_storage/models.py:230-238 | "processed" with `processed_at` set; the data and the text are replaced only when truthy |
| Models.MarkProcessedFrame | s3_storage/models.py:230-238 | for a captured document only those fields and `updated_at` change |
| Models.FalsyArgumentsKeepOldData | s3_storage/models.py:234-237 | an empty dict and an empty text leave the stored data and text as they were |
| Models.Verified | s3_storage/models.py:240-247 | "verified" with verifier and time set; the notes are replaced only when truthy |
| Models.VerifyFrame | s3_storage/models.py:240-247 | for a captured document only those fields and `updated_at` change |
| Models.Step | s3_storage/models.py:225-247 | every lifecycle step ends in one of the six statuses, never "pending" or "rejected" |
| Models.LastStepDecides | s3_storage/models.py:225-247 | with no guard, the status after a run depends only on its last step |
| Models.ReachableStatuses | s3_storage/models.py:164 | from the default status, only "uploaded", "processing", "processed" and "verified" are reachable |
| Models.VerifyFromAnyStatus | tests/test_models.py:137-150 | verifying succeeds from every status |
| Models.DownloadUrl | s3_storage/models.py:212-223 | no link without both bucket and key; otherwise whatever S3 signs for that location and expiry |
| Models.NoFileNoDownload | s3_storage/models.py:216 | a document created without a file never gets a link |
| Models.Document.constructor | s3_storage/models.py:140-210 | the new object holds exactly the created-document state |
| Models.Document.Save | s3_storage/models.py:194-210 | the new state is the saved state of the old one |
| Models.Document.MarkAsProcessing | s3_storage/models.py:225-228 | the new state is the old one marked processing and saved |
| Models.Document.MarkAsProcessed | s3_storage/models.py:230-238 | the new state is the old one marked processed and saved |
| Models.Document.Verify | s3_storage/models.py:240-247 | the new state is the old one verified and saved |
| Models.Document.GetDownloadUrl | s3_storage/models.py:212-223 | no link without bucket and key; otherwise the link for the current state |
| Tasks.CategoryOf | s3_storage/tasks.py:54-68 | each category is chosen exactly for its three types, and every other type is generic |
| Tasks.CategoryNameInjective | s3_storage/tasks.py:114-117 | different processors write different `document_category` names |
| Tasks.CategoryOfChoices | s3_storage/tasks.py:66-68 | among the 19 type choices, exactly 7 are processed generically |
| Tasks.BaseData | s3_storage/tasks.py:114-117 | every processor starts from exactly the category name and the processing time |
| Tasks.ExtractText | s3_storage/tasks.py:128-131 | a PDF gives the extracted PDF text; an image gives the OCR placeholder only where images are read; anything else gives no text |
| Tasks.ProcessIdentityDocument | s3_storage/tasks.py:109-141 | identity data; text from PDFs and images; `text_length` and `has_text` exactly when the text is non-empty |
| Tasks.ProcessFinancialDocument | s3_storage/tasks.py:144-161 | financial data; text only from a PDF |
| Tasks.ProcessEducationalDocument | s3_storage/tasks.py:164-181 | educational data; text only from a PDF |
| Tasks.ProcessEmploymentDocument | s3_storage/tasks.py:184-201 | employment data; text only from a PDF |
| Tasks.ProcessGenericDocument | s3_storage/tasks.py:204-219 | generic data; text from PDFs and images |
| Tasks.DispatchNamesCategory | s3_storage/tasks.py:54-68 | the extracted data names the category of the type, with the processing time |
| Tasks.DispatchOcrRule | s3_storage/tasks.py:54-68 | images are read only for identity and generic types |
| Tasks.DispatchTextEntries | s3_storage/tasks.py:134-139 | the text entries appear exactly for identity types with non-empty text |
| Tasks.CreatedDocumentGetsNoText | s3_storage/tasks.py:55 | a created document never has text extracted, because its file type stays empty |
| Tasks.ProcessedRow | s3_storage/tasks.py:29-106 | a storage error leaves "processing"; any other failure resets to "uploaded"; success ends "processed" |
| Tasks.ProcessResult | s3_storage/tasks.py:81-106 | success exactly when the fetch and the notification both went through; a retry after 60 seconds exactly on a storage error |
| Tasks.ProcessDocument | s3_storage/tasks.py:15-106 | a missing document gives "Document not found" and nothing changes; otherwise the new state and result are the flow's |
| Tasks.ProcessFollowsLifecycle | s3_storage/tasks.py:34-102 | the final status is the lifecycle run of the steps the job took |
| Tasks.ProcessSuccessStoresExtraction | s3_storage/tasks.py:71-85 | on success the extracted data and the processing time are stored and returned |
| Tasks.NotifyFailureUndoesStatusOnly | s3_storage/tasks.py:79-102 | a failed notification resets the status to "uploaded" but keeps the stored extraction |
| Tasks.ProcessStampsRow | s3_storage/tasks.py:34-102 | every outcome with a document saves it: `updated_at` is now and the metadata is captured |
| Tasks.NotifyCaseOfficer | s3_storage/tasks.py:306-327 | not found exactly without a document; notified exactly when the client has an officer, and the recipient is that officer's email |
| Tasks.CountStuck | s3_storage/tasks.py:389-392 | the number of stuck documents is at most the number of documents |
| Tasks.Swept | s3_storage/tasks.py:394-397 | a stuck document is reset to "uploaded" and stamped; any other is unchanged |
| Tasks.CleanupTempFiles | s3_storage/tasks.py:378-404 | each document is swept in place, and the reset count is the number of stuck documents |
| Tasks.SweepLeavesNothingStuck | s3_storage/tasks.py:386-397 | after the sweep no document is stuck |
| Tasks.RetriedDocumentIsSweptAfterAnHour | s3_storage/tasks.py:91-94 | a document left "processing" by a storage error counts as stuck exactly once an hour has passed |
| Tasks.ArchiveKey | s3_storage/tasks.py:356 | the archive key starts with "archive/" and ends with the original key |
| Tasks.CopyFor | s3_storage/tasks.py:354-364 | a copy is asked for exactly when bucket and key are set, from that location to the same bucket |
| Tasks.ClientCopies | s3_storage/tasks.py:351-364 | a client gives at most one copy per document |
| Tasks.CountSucceeded | s3_storage/tasks.py:366-367 | the archived count never exceeds the number of copies asked for |
| Tasks.ArchiveClientDocuments | s3_storage/tasks.py:351-367 | for one client, the copies asked for are that client's plan, and the count is the number that succeeded |
| Tasks.ArchiveOldDocuments | s3_storage/tasks.py:331-374 | the copies asked for are the plan for the selected clients, and the count is the number that succeeded |
| Tasks.ClientCopiesShape | s3_storage/tasks.py:353-362 | every copy is for one of the client's documents, under that client's archive key |
| Tasks.ArchivePlanOnlySelected | s3_storage/tasks.py:341-350 | every copy belongs to a completed client last updated more than 90 days ago |
| Tasks.NothingSelectedNothingArchived | s3_storage/tasks.py:341-374 | with no such client, nothing is copied and the count is 0 |
| Tasks.ArchiveKeyKeepsFileName | s3_storage/tasks.py:356 | the archive key ends in the same file name as the original key |
| Views.GetQueryset | s3_storage/views.py:110-134 | the list is the table narrowed to the rows passing every filter that applies, in table order |
| Views.ListedIffVisible | s3_storage/views.py:116-132 | a document is listed exactly when it is in the table and passes every filter that applies |
| Views.StaffSeesEverything | s3_storage/views.py:116-117 | without parameters, staff see the whole table |
| Views.Count | s3_storage/views.py:275 | a count never exceeds the number of listed documents |
| Views.CountPositive | s3_storage/views.py:280-282 | a count is positive exactly when some listed document has the value |
| Views.StatusCounts | s3_storage/views.py:274-276 | one entry per status choice, in order, zero counts included |
| Views.TypeCounts | s3_storage/views.py:279-282 | only types with a positive count, each with its count |
| Views.TypeCountsHasKey | s3_storage/views.py:279-282 | a choice has an entry exactly when its count is positive |
| Views.TypeCountsKeys | s3_storage/views.py:279-282 | a type has an entry exactly when some listed document has that type |
| Views.Statistics | s3_storage/views.py:262-284 | total is the number listed; `by_status` and `by_type` are the counts above |
| Views.StatusCountsAddUp | s3_storage/views.py:267-276 | when every status is a choice, `by_status` adds up to total |
| Views.TypeCountsAddUp | s3_storage/views.py:267-282 | when every type is a choice, `by_type` adds up to total |
| Views.ClientIp | s3_storage/views.py:299-306 | with a truthy X-Forwarded-For, a ','-free prefix of it; otherwise REMOTE_ADDR |
| Views.ClientIpIsFirstEntry | s3_storage/views.py:303 | the prefix runs up to the first ',' or to the end |
| Views.ClientIpSingleEntry | s3_storage/views.py:303 | a header without ',' is taken whole |
| Strings.FirstSegmentBeforeSep | s3_storage/views.py:303 | a ','-free entry before a ',' is exactly what `split(',')[0]` gives |
| Views.ClientIpKeepsSpaces | s3_storage/views.py:303 | the address is not stripped |
| Views.TruncateUserAgent | s3_storage/views.py:294 | a missing header gives ""; otherwise a prefix of at most 500 characters, the whole header when it fits |
| Views.LogAccess | s3_storage/views.py:286-297 | a successful write appends one entry with the document, user, action, address, agent and time; a failed write changes nothing |
| Views.Lookup | s3_storage/views.py:164 | the object found is a listed document with the id; not found when no listed document has it |
| Views.Destroy | s3_storage/views.py:162-175 | not found changes nothing; a found document gives no content |
| Views.DestroyEffects | s3_storage/views.py:169-174 | the document is gone and the others stay; S3 delete is asked for exactly when bucket and key are set |
| Views.DestroyErasesItsOwnAuditEntry | s3_storage/models.py:262 | after delete no log entry of the document remains, the new 'delete' entry included, and other documents' entries stay |
| Views.Download | s3_storage/views.py:177-197 | not found changes nothing; documents are unchanged; a link is non-empty and expires in 3600 |
| Views.DownloadOutcome | s3_storage/views.py:183-197 | a server error exactly when the link is falsy; the link and file name otherwise; the access is logged either way |
| Views.DownloadWithoutLocationFails | s3_storage/views.py:185-197 | a document without bucket or key always gets the server error |
| Views.BulkUploadErrors | s3_storage/serializers.py:185-201 | the client id is rejected exactly when unknown; the files when none are given or one has no name or is empty; the type when it is not a choice |
| Views.AcceptedFilesAreUsable | s3_storage/serializers.py:189-192 | every file of an accepted request has a name and is non-empty |
| Views.BulkUpload | s3_storage/views.py:229-260 | rejected requests change nothing and queue nothing; otherwise documents are created in file order until a create raises; the documents created before it stay, and any raise answers with a server error and queues nothing; a run with no raise answers with the new ids and queues exactly them |
| Views.BulkDocumentsStartUploaded | s3_storage/views.py:244-250 | each created document is "uploaded", for the requested client and type, titled with the file name, uploaded by the requester |

## Left out

- The boto3 wrappers in `s3_storage/utils.py` (`generate_presigned_url`, `generate_upload_presigned_url`, `delete_s3_file`, `get_file_metadata`, `copy_to_archive`) are remote calls. Their results are parameters: the `presign` function, `FetchOutcome`, the `copy` function. The S3 delete is returned as a request.
- Celery is not modelled: the queue, `process_bulk_documents`, retries and the beat schedule. A `delay` call is represented only by the ids handed to it and whether it raised. `process_document` returns `RetryScheduled(60)` where the task would raise `self.retry`. The retry limit is the queue's and is not modelled.
- The Django ORM is represented by sequences of records. Persistence with `update_fields` is not modelled: the model keeps the object's in-memory state, and each save reruns the metadata capture on it.
- Django's upload machinery is not modelled: `upload_to`, the storage `location` prefix and the collision suffix. The name the storage gives an upload is a parameter (`storedName`). `Utils.OrganizeDocumentPath` is the key that name is built from.
- The DRF layer is not modelled: routing, permissions, pagination, `select_related`, and serializers other than the bulk-upload field checks. The UUID format check on `client_id` is left out; ids are text.
- `ClientViewSet`, `DocumentAccessLogViewSet` and the `create`, `retrieve`, `verify` and `reprocess` views are left out. They are DRF CRUD over the operations modelled here.
- python-magic, PyPDF2 and OCR are left out. The detected MIME type and the PDF text are parameters. The image reader is its fixed placeholder text.
- `timezone.now()` is a parameter. Times are whole seconds, and `isoformat` is not modelled: the time is stored as a value.
- Floating point is left out: the MB figure in the size error and `get_file_size_mb`.
- Environment overrides read by `config(...)` are left out. Every constant has its default.
- Logging is left out.
- `test_s3_connection.py`, `config/settings.py`, `config/celery.py` and `s3_storage/urls.py` are not part of this model.
- Validators.IsWordChar: Python's Unicode `\w` is approximated by ASCII letters, digits and '_'.
- Strings.Lower: `str.lower` is modelled for ASCII letters only.
- Utils.ValidDateTime: years are limited to 1000-9999, because `%Y` pads smaller years differently per platform.
- Views.LogAccess: the field validation a database may apply to `ip_address` is folded into the `logWritten` outcome.
- Models.Document: the fields no code path assigns after creation (id, client, type, title, description, file type, upload time, uploader) are constants of the object. The Python object would let any code reassign them.
- Views.BulkUpload: the object a raising create may already have written to S3 is not modelled, and `process_bulk_documents` itself is left out with the rest of Celery.
