/**
 * The request-side computations of the document API: the list filters, the
 * statistics counts, the audit-log entry and the client address it records,
 * delete and download, and bulk upload.
 *
 * The database is a `Store` of document rows and access-log rows, each in
 * the order the query yields them.  Writes that can raise and S3 answers are
 * parameters (`logWritten`, `presign`), and the request's headers are passed
 * as the optional values `request.META.get` would return.
 */
module Views {
  import opened Wrappers
  import opened Strings
  import opened Models

  // ---------------------------------------------------------------------------
  // Selection helpers
  // ---------------------------------------------------------------------------

  /** The rows of `s` that `keep` accepts, in order: one `queryset.filter(...)`. */
  function Where(s: seq<DocumentRecord>, keep: DocumentRecord -> bool): (r: seq<DocumentRecord>)
    ensures |r| <= |s|
    ensures forall x :: x in r ==> x in s && keep(x)
    decreases |s|
  {
    if |s| == 0 then []
    else Where(s[..|s| - 1], keep) + (if keep(s[|s| - 1]) then [s[|s| - 1]] else [])
  }

  /** Every row that `keep` accepts is selected. */
  lemma {:induction false} WhereComplete(s: seq<DocumentRecord>, keep: DocumentRecord -> bool)
    ensures forall x :: x in s && keep(x) ==> x in Where(s, keep)
    decreases |s|
  {
    if |s| > 0 {
      WhereComplete(s[..|s| - 1], keep);
      assert forall x :: x in s ==> x in s[..|s| - 1] || x == s[|s| - 1];
    }
  }

  /** Two filters in a row select what their conjunction selects, in the same order. */
  lemma {:induction false} WhereThenWhere(s: seq<DocumentRecord>, p: DocumentRecord -> bool,
                                          q: DocumentRecord -> bool, both: DocumentRecord -> bool)
    requires forall x :: both(x) == (p(x) && q(x))
    ensures Where(Where(s, p), q) == Where(s, both)
    decreases |s|
  {
    if |s| > 0 {
      var n := |s| - 1;
      WhereThenWhere(s[..n], p, q, both);
      var head := Where(s[..n], p);
      if p(s[n]) {
        assert Where(s, p) == head + [s[n]];
        assert (head + [s[n]])[..|head|] == head;
      } else {
        assert Where(s, p) == head;
      }
    }
  }

  /** Filters that accept the same rows select the same rows. */
  lemma {:induction false} WhereSame(s: seq<DocumentRecord>, p: DocumentRecord -> bool, q: DocumentRecord -> bool)
    requires forall x :: p(x) == q(x)
    ensures Where(s, p) == Where(s, q)
    decreases |s|
  {
    if |s| > 0 {
      WhereSame(s[..|s| - 1], p, q);
    }
  }

  // ---------------------------------------------------------------------------
  // get_queryset
  // ---------------------------------------------------------------------------

  datatype User = User(id: Id, isStaff: bool)

  /** The list query parameters, each as `query_params.get(name)` returns it. */
  datatype DocumentQuery = DocumentQuery(clientId: Option<string>, documentType: Option<string>, status: Option<string>)

  const NoQuery: DocumentQuery := DocumentQuery(None, None, None)

  /** A query parameter applies when it is truthy: given and non-empty. */
  predicate Present(p: Option<string>)
  {
    p.Some? && p.value != ""
  }

  /** Staff see every document; anyone else only documents of clients assigned to them. */
  predicate OwnerFilter(d: DocumentRecord, clients: map<Id, ClientRecord>, user: User)
  {
    user.isStaff || (d.clientId in clients && clients[d.clientId].assignedTo == Some(user.id))
  }

  predicate ClientFilter(d: DocumentRecord, q: DocumentQuery)
  {
    Present(q.clientId) ==> d.clientId == q.clientId.value
  }

  predicate TypeFilter(d: DocumentRecord, q: DocumentQuery)
  {
    Present(q.documentType) ==> d.documentType == q.documentType.value
  }

  predicate StatusFilter(d: DocumentRecord, q: DocumentQuery)
  {
    Present(q.status) ==> d.status == q.status.value
  }

  /** The list filters are a conjunction, each applying only when its parameter is present. */
  predicate Visible(d: DocumentRecord, clients: map<Id, ClientRecord>, user: User, q: DocumentQuery)
  {
    OwnerFilter(d, clients, user) && ClientFilter(d, q) && TypeFilter(d, q) && StatusFilter(d, q)
  }

  /** `DocumentViewSet.get_queryset()`: the table narrowed filter by filter. */
  method GetQueryset(docs: seq<DocumentRecord>, clients: map<Id, ClientRecord>, user: User, q: DocumentQuery)
    returns (qs: seq<DocumentRecord>)
    ensures qs == Where(docs, d => Visible(d, clients, user, q))
  {
    var owner := (d: DocumentRecord) => OwnerFilter(d, clients, user);
    var upToClient := (d: DocumentRecord) => OwnerFilter(d, clients, user) && ClientFilter(d, q);
    var upToType := (d: DocumentRecord) => OwnerFilter(d, clients, user) && ClientFilter(d, q) && TypeFilter(d, q);
    var all := (d: DocumentRecord) => Visible(d, clients, user, q);

    qs := docs;
    
    if !user.isStaff {
      qs := Where(qs, owner);
    } else {
      WhereAll(docs, owner);
    }
    assert qs == Where(docs, owner);

    if Present(q.clientId) {
      var keep := (d: DocumentRecord) => d.clientId == q.clientId.value;
      WhereThenWhere(docs, owner, keep, upToClient);
      qs := Where(qs, keep);
    } else {
      WhereSame(docs, owner, upToClient);
    }
    assert qs == Where(docs, upToClient);

    if Present(q.documentType) {
      var keep := (d: DocumentRecord) => d.documentType == q.documentType.value;
      WhereThenWhere(docs, upToClient, keep, upToType);
      qs := Where(qs, keep);
    } else {
      WhereSame(docs, upToClient, upToType);
    }
    assert qs == Where(docs, upToType);

    if Present(q.status) {
      var keep := (d: DocumentRecord) => d.status == q.status.value;
      WhereThenWhere(docs, upToType, keep, all);
      qs := Where(qs, keep);
    } else {
      WhereSame(docs, upToType, all);
    }
  }

  /** A filter that accepts every row selects the whole table. */
  lemma {:induction false} WhereAll(s: seq<DocumentRecord>, keep: DocumentRecord -> bool)
    requires forall x :: x in s ==> keep(x)
    ensures Where(s, keep) == s
    decreases |s|
  {
    if |s| > 0 {
      var n := |s| - 1;
      WhereAll(s[..n], keep);
      assert s[n] in s;
      assert s[..n] + [s[n]] == s;
    }
  }

  /** A document is listed exactly when it is in the table and passes every filter that applies. */
  lemma ListedIffVisible(docs: seq<DocumentRecord>, clients: map<Id, ClientRecord>, user: User, q: DocumentQuery,
                         d: DocumentRecord)
    ensures d in Where(docs, x => Visible(x, clients, user, q)) <==> d in docs && Visible(d, clients, user, q)
  {
    WhereComplete(docs, x => Visible(x, clients, user, q));
  }

  /** Without parameters, a staff member sees the whole table, in order. */
  lemma StaffSeesEverything(docs: seq<DocumentRecord>, clients: map<Id, ClientRecord>, user: User)
    requires user.isStaff
    ensures Where(docs, x => Visible(x, clients, user, NoQuery)) == docs
  {
    WhereAll(docs, x => Visible(x, clients, user, NoQuery));
  }

  // ---------------------------------------------------------------------------
  // statistics
  // ---------------------------------------------------------------------------

  /** Which column a count groups by. */
  datatype Column = StatusColumn | TypeColumn

  function Field(d: DocumentRecord, col: Column): string
  {
    match col
    case StatusColumn => d.status
    case TypeColumn => d.documentType
  }

  /** `queryset.filter(<column>=value).count()`. */
  function Count(qs: seq<DocumentRecord>, col: Column, value: string): (n: nat)
    ensures n <= |qs|
    decreases |qs|
  {
    if |qs| == 0 then 0
    else Count(qs[..|qs| - 1], col, value) + (if Field(qs[|qs| - 1], col) == value then 1 else 0)
  }

  /** A count is positive exactly when some row carries the value. */
  lemma {:induction false} CountPositive(qs: seq<DocumentRecord>, col: Column, value: string)
    ensures Count(qs, col, value) > 0 <==> exists i :: 0 <= i < |qs| && Field(qs[i], col) == value
    decreases |qs|
  {
    if |qs| > 0 {
      var n := |qs| - 1;
      CountPositive(qs[..n], col, value);
      if exists i :: 0 <= i < |qs| && Field(qs[i], col) == value {
        var i :| 0 <= i < |qs| && Field(qs[i], col) == value;
        if i < n {
          assert qs[..n][i] == qs[i];
        }
      }
      if exists i :: 0 <= i < n && Field(qs[..n][i], col) == value {
        var i :| 0 <= i < n && Field(qs[..n][i], col) == value;
        assert qs[i] == qs[..n][i];
      }
    }
  }

  /** One `(choice, count)` entry of the result dictionaries. */
  datatype Entry = Entry(key: string, count: nat)

  /** `by_status`: one entry per choice, in choice order, zero counts included. */
  function StatusCounts(qs: seq<DocumentRecord>, choices: seq<string>): (r: seq<Entry>)
    ensures |r| == |choices|
    ensures forall k :: 0 <= k < |r| ==> r[k] == Entry(choices[k], Count(qs, StatusColumn, choices[k]))
    decreases |choices|
  {
    if |choices| == 0 then []
    else
      var c := choices[|choices| - 1];
      StatusCounts(qs, choices[..|choices| - 1]) + [Entry(c, Count(qs, StatusColumn, c))]
  }

  /** `by_type`: an entry per choice that occurs, in choice order; absent types get no entry. */
  function TypeCounts(qs: seq<DocumentRecord>, choices: seq<string>): (r: seq<Entry>)
    ensures |r| <= |choices|
    ensures forall k :: 0 <= k < |r| ==> r[k].count > 0 && r[k].key in choices && r[k].count == Count(qs, TypeColumn, r[k].key)
    decreases |choices|
  {
    if |choices| == 0 then []
    else
      var c := choices[|choices| - 1];
      var n := Count(qs, TypeColumn, c);
      TypeCounts(qs, choices[..|choices| - 1]) + (if n > 0 then [Entry(c, n)] else [])
  }

  /** A choice has a `by_type` entry exactly when it is one of the choices and its count is positive. */
  lemma {:induction false} TypeCountsHasKey(qs: seq<DocumentRecord>, choices: seq<string>, t: string)
    ensures (exists e :: e in TypeCounts(qs, choices) && e.key == t) <==> t in choices && Count(qs, TypeColumn, t) > 0
    decreases |choices|
  {
    if |choices| > 0 {
      var n := |choices| - 1;
      var c := choices[n];
      var k := Count(qs, TypeColumn, c);
      var front := TypeCounts(qs, choices[..n]);
      var tail := if k > 0 then [Entry(c, k)] else [];
      TypeCountsHasKey(qs, choices[..n], t);
      assert TypeCounts(qs, choices) == front + tail;
      assert forall e :: e in front + tail <==> e in front || e in tail;
      assert t in choices <==> t in choices[..n] || t == c by {
        assert choices == choices[..n] + [c];
      }
    }
  }

  /** A type choice has an entry exactly when some listed document has that type. */
  lemma TypeCountsKeys(qs: seq<DocumentRecord>, t: string)
    requires t in DocumentTypeChoices
    ensures (exists e :: e in TypeCounts(qs, DocumentTypeChoices) && e.key == t)
        <==> exists i :: 0 <= i < |qs| && qs[i].documentType == t
  {
    TypeCountsHasKey(qs, DocumentTypeChoices, t);
    CountPositive(qs, TypeColumn, t);
  }

  /** `statistics()` over the listed documents: total, `by_status` and `by_type`. */
  method Statistics(qs: seq<DocumentRecord>) returns (total: nat, byStatus: seq<Entry>, byType: seq<Entry>)
    ensures total == |qs|
    ensures byStatus == StatusCounts(qs, DocumentStatusChoices)
    ensures byType == TypeCounts(qs, DocumentTypeChoices)
  {
    total := |qs|;
    byStatus := [];
    var i := 0;
    while i < |DocumentStatusChoices|
      invariant 0 <= i <= |DocumentStatusChoices|
      invariant byStatus == StatusCounts(qs, DocumentStatusChoices[..i])
    {
      assert DocumentStatusChoices[..i + 1][..i] == DocumentStatusChoices[..i];
      var choice := DocumentStatusChoices[i];
      var count := Count(qs, StatusColumn, choice);
      byStatus := byStatus + [Entry(choice, count)];
      i := i + 1;
    }
    assert DocumentStatusChoices[..i] == DocumentStatusChoices;
    byType := [];
    var j := 0;
    while j < |DocumentTypeChoices|
      invariant 0 <= j <= |DocumentTypeChoices|
      invariant byType == TypeCounts(qs, DocumentTypeChoices[..j])
    {
      assert DocumentTypeChoices[..j + 1][..j] == DocumentTypeChoices[..j];
      var docType := DocumentTypeChoices[j];
      var count := Count(qs, TypeColumn, docType);
      if count > 0 {
        byType := byType + [Entry(docType, count)];
      }
      j := j + 1;
    }
    assert DocumentTypeChoices[..j] == DocumentTypeChoices;
  }

  /** The sum of the counts of a list of entries. */
  function SumCounts(entries: seq<Entry>): nat
    decreases |entries|
  {
    if |entries| == 0 then 0 else SumCounts(entries[..|entries| - 1]) + entries[|entries| - 1].count
  }

  /** Sums add up over concatenation. */
  lemma {:induction false} SumCountsConcat(a: seq<Entry>, b: seq<Entry>)
    ensures SumCounts(a + b) == SumCounts(a) + SumCounts(b)
    decreases |b|
  {
    if |b| == 0 {
      assert a + b == a;
    } else {
      SumCountsConcat(a, b[..|b| - 1]);
      assert (a + b)[..|a + b| - 1] == a + b[..|b| - 1];
      assert (a + b)[|a + b| - 1] == b[|b| - 1];
    }
  }

  /** How often `value` occurs in `choices`. */
  function Occurrences(choices: seq<string>, value: string): nat
    decreases |choices|
  {
    if |choices| == 0 then 0
    else Occurrences(choices[..|choices| - 1], value) + (if choices[|choices| - 1] == value then 1 else 0)
  }

  predicate Distinct(choices: seq<string>)
  {
    forall i, j :: 0 <= i < j < |choices| ==> choices[i] != choices[j]
  }

  /** In a list without repeats, a member occurs once. */
  lemma {:induction false} OccursOnce(choices: seq<string>, value: string)
    requires Distinct(choices)
    ensures Occurrences(choices, value) == (if value in choices then 1 else 0)
    decreases |choices|
  {
    if |choices| > 0 {
      var n := |choices| - 1;
      OccursOnce(choices[..n], value);
      if choices[n] == value {
        assert value !in choices[..n] by {
          forall i | 0 <= i < n
            ensures choices[..n][i] != value
          {
            assert choices[i] != choices[n];
          }
        }
      }
      assert value in choices <==> value in choices[..n] || choices[n] == value;
    }
  }

  /** Adding one row to the counted rows adds, over all choices, the number of choices equal to its value. */
  lemma {:induction false} StatusSumSnoc(qs: seq<DocumentRecord>, d: DocumentRecord, col: Column, choices: seq<string>)
    ensures SumOfCounts(qs + [d], col, choices) == SumOfCounts(qs, col, choices) + Occurrences(choices, Field(d, col))
    decreases |choices|
  {
    if |choices| > 0 {
      var n := |choices| - 1;
      StatusSumSnoc(qs, d, col, choices[..n]);
      assert (qs + [d])[..|qs + [d]| - 1] == qs;
    }
  }

  /** The sum over `choices` of the per-choice counts. */
  function SumOfCounts(qs: seq<DocumentRecord>, col: Column, choices: seq<string>): nat
    decreases |choices|
  {
    if |choices| == 0 then 0
    else SumOfCounts(qs, col, choices[..|choices| - 1]) + Count(qs, col, choices[|choices| - 1])
  }

  /** When every row's value is one of the distinct choices, the per-choice counts add up to the number of rows. */
  lemma {:induction false} CountsCoverAll(qs: seq<DocumentRecord>, col: Column, choices: seq<string>)
    requires Distinct(choices)
    requires forall i :: 0 <= i < |qs| ==> Field(qs[i], col) in choices
    ensures SumOfCounts(qs, col, choices) == |qs|
    decreases |qs|
  {
    if |qs| == 0 {
      ZeroCounts(col, choices);
    } else {
      var n := |qs| - 1;
      CountsCoverAll(qs[..n], col, choices);
      assert qs[..n] + [qs[n]] == qs;
      StatusSumSnoc(qs[..n], qs[n], col, choices);
      OccursOnce(choices, Field(qs[n], col));
    }
  }

  /** Over no rows every count is zero. */
  lemma {:induction false} ZeroCounts(col: Column, choices: seq<string>)
    ensures SumOfCounts([], col, choices) == 0
    decreases |choices|
  {
    if |choices| > 0 {
      ZeroCounts(col, choices[..|choices| - 1]);
    }
  }

  /** The `by_status` entries add up to the per-choice counts. */
  lemma {:induction false} StatusCountsSum(qs: seq<DocumentRecord>, choices: seq<string>)
    ensures SumCounts(StatusCounts(qs, choices)) == SumOfCounts(qs, StatusColumn, choices)
    decreases |choices|
  {
    if |choices| > 0 {
      var n := |choices| - 1;
      StatusCountsSum(qs, choices[..n]);
      var r := StatusCounts(qs, choices);
      assert r[..|r| - 1] == StatusCounts(qs, choices[..n]);
    }
  }

  /** Leaving out the zero counts does not change the sum of the `by_type` entries. */
  lemma {:induction false} TypeCountsSum(qs: seq<DocumentRecord>, choices: seq<string>)
    ensures SumCounts(TypeCounts(qs, choices)) == SumOfCounts(qs, TypeColumn, choices)
    decreases |choices|
  {
    if |choices| > 0 {
      var n := |choices| - 1;
      TypeCountsSum(qs, choices[..n]);
      var c := choices[n];
      var k := Count(qs, TypeColumn, c);
      SumCountsConcat(TypeCounts(qs, choices[..n]), if k > 0 then [Entry(c, k)] else []);
      assert SumCounts([Entry(c, k)]) == k by {
        assert [Entry(c, k)][..0] == [];
      }
    }
  }

  /** When every listed document has a status among the six choices, `by_status` adds up to `total`. */
  lemma {:induction false} StatusCountsAddUp(qs: seq<DocumentRecord>)
    requires forall i :: 0 <= i < |qs| ==> qs[i].status in DocumentStatusChoices
    ensures SumCounts(StatusCounts(qs, DocumentStatusChoices)) == |qs|
  {
    ChoiceListsDistinct();
    assert Distinct(DocumentStatusChoices);
    StatusCountsSum(qs, DocumentStatusChoices);
    CountsCoverAll(qs, StatusColumn, DocumentStatusChoices);
  }

  /** When every listed document has a type among the nineteen choices, `by_type` adds up to `total`. */
  lemma {:induction false} TypeCountsAddUp(qs: seq<DocumentRecord>)
    requires forall i :: 0 <= i < |qs| ==> qs[i].documentType in DocumentTypeChoices
    ensures SumCounts(TypeCounts(qs, DocumentTypeChoices)) == |qs|
  {
    ChoiceListsDistinct();
    assert Distinct(DocumentTypeChoices);
    TypeCountsSum(qs, DocumentTypeChoices);
    CountsCoverAll(qs, TypeColumn, DocumentTypeChoices);
  }

  // ---------------------------------------------------------------------------
  // The audit log
  // ---------------------------------------------------------------------------

  /** `_get_client_ip`: the text before the first ',' of a truthy X-Forwarded-For header, unstripped; else REMOTE_ADDR. */
  function ClientIp(forwardedFor: Option<string>, remoteAddr: Option<string>): (ip: Option<string>)
    ensures !TruthyText(forwardedFor) ==> ip == remoteAddr
    ensures TruthyText(forwardedFor) ==> ip.Some? && ip.value <= forwardedFor.value && ',' !in ip.value
  {
    if TruthyText(forwardedFor) then
      FirstSegmentShape(forwardedFor.value, ',');
      Some(FirstSegment(forwardedFor.value, ','))
    else remoteAddr
  }

  /** The address taken is the whole first entry: it runs up to the first ',' or to the end of the header. */
  lemma ClientIpIsFirstEntry(forwardedFor: string, remoteAddr: Option<string>)
    requires forwardedFor != ""
    ensures var ip := ClientIp(Some(forwardedFor), remoteAddr).value;
            |ip| == |forwardedFor| || forwardedFor[|ip|] == ','
  {
    FirstSegmentShape(forwardedFor, ',');
  }

  /** A header without a ',' is taken whole, spaces included. */
  lemma ClientIpSingleEntry(forwardedFor: string, remoteAddr: Option<string>)
    requires forwardedFor != "" && ',' !in forwardedFor
    ensures ClientIp(Some(forwardedFor), remoteAddr) == Some(forwardedFor)
  {
    SplitNoSep(forwardedFor, ',');
  }

  /** The address is not stripped: a space before the first ',' stays in it. */
  lemma ClientIpKeepsSpaces()
    ensures ClientIp(Some("10.0.0.1 , 10.0.0.2"), None) == Some("10.0.0.1 ")
  {
    var first, rest := "10.0.0.1 ", " 10.0.0.2";
    assert "10.0.0.1 , 10.0.0.2" == first + [','] + rest;
    assert ',' !in first;
    FirstSegmentBeforeSep(first, ',', rest);
  }

  const MaxUserAgent: nat := 500

  /** `request.META.get('HTTP_USER_AGENT', '')[:500]`. */
  function TruncateUserAgent(userAgent: Option<string>): (ua: string)
    ensures |ua| <= MaxUserAgent
    ensures userAgent.None? ==> ua == ""
    ensures userAgent.Some? ==> ua <= userAgent.value
    ensures userAgent.Some? && |userAgent.value| <= MaxUserAgent ==> ua == userAgent.value
    ensures userAgent.Some? && |userAgent.value| > MaxUserAgent ==> |ua| == MaxUserAgent
  {
    match userAgent
    case None => ""
    case Some(s) => if |s| <= MaxUserAgent then s else s[..MaxUserAgent]
  }

  /** One `DocumentAccessLog` row. */
  datatype AccessLogEntry = AccessLogEntry(documentId: Id, userId: Option<Id>, action: string,
                                           ipAddress: Option<string>, userAgent: string, timestamp: Time)

  /** The request data the log reads. */
  datatype RequestInfo = RequestInfo(user: User, forwardedFor: Option<string>, remoteAddr: Option<string>,
                                     userAgent: Option<string>)

  /** The tables the views read and write. */
  datatype Store = Store(docs: seq<DocumentRecord>, logs: seq<AccessLogEntry>)

  /**
   * `_log_document_access`: one entry appended, unless the write raised
   * (`logWritten` false), which is swallowed and the caller goes on.
   */
  function LogAccess(logs: seq<AccessLogEntry>, d: DocumentRecord, action: string, req: RequestInfo,
                     logWritten: bool, now: Time): (r: seq<AccessLogEntry>)
    ensures !logWritten ==> r == logs
    ensures logWritten ==> |r| == |logs| + 1 && r[..|logs|] == logs
    ensures logWritten ==> r[|logs|] == AccessLogEntry(d.id, Some(req.user.id), action,
                                                        ClientIp(req.forwardedFor, req.remoteAddr),
                                                        TruncateUserAgent(req.userAgent), now)
  {
    if logWritten then
      var entry := AccessLogEntry(d.id, Some(req.user.id), action, ClientIp(req.forwardedFor, req.remoteAddr),
                                  TruncateUserAgent(req.userAgent), now);
      assert (logs + [entry])[..|logs|] == logs;
      logs + [entry]
    else logs
  }

  // ---------------------------------------------------------------------------
  // get_object, destroy and download
  // ---------------------------------------------------------------------------

  /** `get_object()`: the first listed document with the id, or `None` (a 404). */
  function Lookup(listed: seq<DocumentRecord>, id: Id): (r: Option<DocumentRecord>)
    ensures r.Some? ==> r.value in listed && r.value.id == id
    ensures r.None? ==> forall i :: 0 <= i < |listed| ==> listed[i].id != id
    decreases |listed|
  {
    if |listed| == 0 then None
    else if listed[0].id == id then Some(listed[0])
    else Lookup(listed[1..], id)
  }

  /** The `delete_s3_file` call: bucket, key, region. */
  datatype DeleteRequest = DeleteRequest(bucket: string, key: string, region: string)

  datatype DestroyResponse = NoContent(s3Delete: Option<DeleteRequest>) | DestroyNotFound

  /** The table without the rows of one id. */
  function WithoutDocument(docs: seq<DocumentRecord>, id: Id): (r: seq<DocumentRecord>)
    ensures forall x :: x in r <==> x in docs && x.id != id
    decreases |docs|
  {
    if |docs| == 0 then []
    else WithoutDocument(docs[..|docs| - 1], id) + (if docs[|docs| - 1].id != id then [docs[|docs| - 1]] else [])
  }

  /** The log without the rows of one document: the `on_delete=CASCADE` of the log's foreign key. */
  function WithoutLogsOf(logs: seq<AccessLogEntry>, id: Id): (r: seq<AccessLogEntry>)
    ensures forall x :: x in r <==> x in logs && x.documentId != id
    decreases |logs|
  {
    if |logs| == 0 then []
    else WithoutLogsOf(logs[..|logs| - 1], id) + (if logs[|logs| - 1].documentId != id then [logs[|logs| - 1]] else [])
  }

  /**
   * `destroy`: find the document among those listed, log 'delete', ask S3 to
   * delete the object when bucket and key are set, delete the row (and, by
   * cascade, its log entries).
   */
  function Destroy(store: Store, listed: seq<DocumentRecord>, id: Id, req: RequestInfo, logWritten: bool, now: Time)
    : (out: (Store, DestroyResponse))
    ensures Lookup(listed, id).None? ==> out == (store, DestroyNotFound)
    ensures Lookup(listed, id).Some? ==> out.1.NoContent?
  {
    match Lookup(listed, id)
    case None => (store, DestroyNotFound)
    case Some(d) =>
      var logs := LogAccess(store.logs, d, "delete", req, logWritten, now);
      var s3 := if d.s3Bucket != "" && d.s3Key != "" then Some(DeleteRequest(d.s3Bucket, d.s3Key, d.s3Region)) else None;
      (Store(WithoutDocument(store.docs, d.id), WithoutLogsOf(logs, d.id)), NoContent(s3))
  }

  /** A found document is gone afterwards, the S3 delete is asked for exactly when it has a location, and other documents stay. */
  lemma DestroyEffects(store: Store, listed: seq<DocumentRecord>, id: Id, req: RequestInfo, logWritten: bool, now: Time)
    requires Lookup(listed, id).Some?
    ensures var d := Lookup(listed, id).value;
            var (after, resp) := Destroy(store, listed, id, req, logWritten, now);
            && (forall x :: x in after.docs ==> x.id != id)
            && (forall x :: x in store.docs && x.id != id ==> x in after.docs)
            && (resp.s3Delete.Some? <==> d.s3Bucket != "" && d.s3Key != "")
            && (resp.s3Delete.Some? ==> resp.s3Delete.value == DeleteRequest(d.s3Bucket, d.s3Key, d.s3Region))
  {
  }

  /**
   * The 'delete' entry is written and then removed by the cascade along with
   * every other entry of the document: the audit trail keeps no record of
   * the deletion, while other documents' entries survive.
   */
  lemma DestroyErasesItsOwnAuditEntry(store: Store, listed: seq<DocumentRecord>, id: Id, req: RequestInfo, now: Time)
    requires Lookup(listed, id).Some?
    ensures var after := Destroy(store, listed, id, req, true, now).0;
            && (forall e :: e in after.logs ==> e.documentId != id)
            && (forall e :: e in store.logs && e.documentId != id ==> e in after.logs)
  {
    var d := Lookup(listed, id).value;
    var logs := LogAccess(store.logs, d, "delete", req, true, now);
    assert forall e :: e in store.logs ==> e in logs by {
      assert logs[..|store.logs|] == store.logs;
    }
  }

  datatype DownloadResponse =
    | DownloadLink(downloadUrl: string, expiresIn: nat, filename: string)
    | DownloadUnavailable
    | DownloadNotFound

  const DownloadExpiry: nat := 3600

  /**
   * `download`: find the document, log 'download', ask for a link valid for
   * an hour, and answer with it or with a server error when it is falsy.
   */
  function Download(store: Store, listed: seq<DocumentRecord>, id: Id, req: RequestInfo, logWritten: bool,
                    presign: PresignRequest -> Option<string>, now: Time): (out: (Store, DownloadResponse))
    ensures Lookup(listed, id).None? ==> out == (store, DownloadNotFound)
    ensures out.0.docs == store.docs
    ensures out.1.DownloadLink? ==> out.1.expiresIn == 3600 && out.1.downloadUrl != ""
  {
    match Lookup(listed, id)
    case None => (store, DownloadNotFound)
    case Some(d) =>
      var logs := LogAccess(store.logs, d, "download", req, logWritten, now);
      var url := DownloadUrl(d, DownloadExpiry, presign);
      var resp := if TruthyText(url) then DownloadLink(url.value, DownloadExpiry, d.originalFilename) else DownloadUnavailable;
      (Store(store.docs, logs), resp)
  }

  /** For a found document the answer is an error exactly when no usable link came back, and the access is logged either way. */
  lemma DownloadOutcome(store: Store, listed: seq<DocumentRecord>, id: Id, req: RequestInfo, logWritten: bool,
                        presign: PresignRequest -> Option<string>, now: Time)
    requires Lookup(listed, id).Some?
    ensures var d := Lookup(listed, id).value;
            var (after, resp) := Download(store, listed, id, req, logWritten, presign, now);
            var url := DownloadUrl(d, DownloadExpiry, presign);
            && (resp == DownloadUnavailable <==> !TruthyText(url))
            && (resp.DownloadLink? ==> Some(resp.downloadUrl) == url && resp.filename == d.originalFilename)
            && after.logs == LogAccess(store.logs, d, "download", req, logWritten, now)
  {
  }

  /** A document without bucket or key always gets the server error, however the link service behaves. */
  lemma DownloadWithoutLocationFails(store: Store, listed: seq<DocumentRecord>, id: Id, req: RequestInfo,
                                     logWritten: bool, presign: PresignRequest -> Option<string>, now: Time)
    requires Lookup(listed, id).Some?
    requires Lookup(listed, id).value.s3Bucket == "" || Lookup(listed, id).value.s3Key == ""
    ensures Download(store, listed, id, req, logWritten, presign, now).1 == DownloadUnavailable
  {
  }

  // ---------------------------------------------------------------------------
  // bulk_upload
  // ---------------------------------------------------------------------------

  /** The request fields `BulkUploadSerializer` can reject. */
  datatype BulkField = ClientIdField | FilesField | DocumentTypeField

  /** DRF's `FileField` refuses a file without a name and, as empty files are not allowed, one of size 0. */
  predicate UnusableFile(f: FileRef)
  {
    f.name == "" || f.size == 0
  }

  /**
   * The serializer's field errors: unknown client; an empty file list or a
   * list holding an unusable file; a type that is not a choice.
   */
  function BulkUploadErrors(clientId: Id, files: seq<FileRef>, documentType: string,
                            clients: map<Id, ClientRecord>): (errors: set<BulkField>)
    ensures ClientIdField in errors <==> clientId !in clients
    ensures FilesField in errors <==> |files| == 0 || exists k :: 0 <= k < |files| && UnusableFile(files[k])
    ensures DocumentTypeField in errors <==> documentType !in DocumentTypeChoices
  {
    (if clientId !in clients then {ClientIdField} else {})
    + (if |files| == 0 || exists k :: 0 <= k < |files| && UnusableFile(files[k]) then {FilesField} else {})
    + (if documentType !in DocumentTypeChoices then {DocumentTypeField} else {})
  }

  /** A request the serializer accepts has only named, non-empty files. */
  lemma AcceptedFilesAreUsable(clientId: Id, files: seq<FileRef>, documentType: string,
                               clients: map<Id, ClientRecord>, k: nat)
    requires BulkUploadErrors(clientId, files, documentType, clients) == {}
    requires k < |files|
    ensures files[k].name != "" && files[k].size > 0
  {
    assert FilesField !in BulkUploadErrors(clientId, files, documentType, clients);
  }

  /**
   * The answer: created (201) with the new ids, rejected (400) with the
   * field errors, or a server error (500) when a create or the queueing raised.
   */
  datatype BulkResponse = BulkCreated(documentIds: seq<Id>) | BulkRejected(errors: set<BulkField>) | BulkServerError

  /**
   * How the steps after validation went: nothing raised, the create for file
   * `index` raised (a storage or database error), or queueing
   * `process_bulk_documents` raised.  The creates run outside a transaction.
   */
  datatype BulkRun = AllSucceed | CreateRaises(index: nat) | QueueRaises

  /** How many documents a run creates before it stops. */
  function CreatedCount(run: BulkRun, files: nat): (n: nat)
    requires run.CreateRaises? ==> run.index < files
    ensures n <= files
    ensures n == files <==> !run.CreateRaises?
  {
    if run.CreateRaises? then run.index else files
  }

  /** The document `bulk_upload` creates for one file: titled with the file's name, uploaded by the requester. */
  function BulkDocument(client: ClientRecord, documentType: string, file: FileRef, user: User,
                        id: Id, storedName: string, now: Time): DocumentRecord
  {
    CreatedDocument(id, client, documentType, file.name, None, file, Some(user.id), storedName, now)
  }

  /**
   * `bulk_upload`: validate, then create one document per file, in order,
   * then queue `process_bulk_documents` with the new ids.  `newIds` are the
   * ids the database assigns and `storedNames` the names the storage gives
   * the uploads, one per file; `run` says which step, if any, raised.
   * `queued` is what was handed to the processing task.  A raising create
   * leaves the documents created before it in place.
   */
  method BulkUpload(docs: seq<DocumentRecord>, clients: map<Id, ClientRecord>, user: User, clientId: Id,
                    files: seq<FileRef>, documentType: string, newIds: seq<Id>, storedNames: seq<string>,
                    run: BulkRun, now: Time)
    returns (after: seq<DocumentRecord>, response: BulkResponse, queued: seq<Id>)
    requires |newIds| == |files| && |storedNames| == |files|
    requires run.CreateRaises? ==> run.index < |files|
    ensures BulkUploadErrors(clientId, files, documentType, clients) != {} ==>
              after == docs && response == BulkRejected(BulkUploadErrors(clientId, files, documentType, clients))
              && queued == []
    ensures BulkUploadErrors(clientId, files, documentType, clients) == {} ==>
              var n := CreatedCount(run, |files|);
              && (response == if run == AllSucceed then BulkCreated(newIds) else BulkServerError)
              && (queued == if run == AllSucceed then newIds else [])
              && |after| == |docs| + n
              && after[..|docs|] == docs
              && forall k :: 0 <= k < n ==>
                   after[|docs| + k] == BulkDocument(clients[clientId], documentType, files[k], user, newIds[k], storedNames[k], now)
  {
    var errors := BulkUploadErrors(clientId, files, documentType, clients);
    if errors != {} {
      return docs, BulkRejected(errors), [];
    }
    var client := clients[clientId];
    after := docs;
    var ids: seq<Id> := [];
    var i := 0;
    while i < |files|
      invariant 0 <= i <= |files|
      invariant i <= CreatedCount(run, |files|)
      invariant |after| == |docs| + i
      invariant after[..|docs|] == docs
      invariant forall k :: 0 <= k < i ==>
                  after[|docs| + k] == BulkDocument(client, documentType, files[k], user, newIds[k], storedNames[k], now)
      invariant ids == newIds[..i]
    {
      if run == CreateRaises(i) {
        return after, BulkServerError, [];
      }
      var created := CreatedDocument(newIds[i], client, documentType, files[i].name, None, files[i], Some(user.id),
                                     storedNames[i], now);
      after := after + [created];
      ids := ids + [created.id];
      i := i + 1;
    }
    assert ids == newIds;
    if run == QueueRaises {
      return after, BulkServerError, [];
    }
    response, queued := BulkCreated(ids), ids;
  }

  /** Every created document starts 'uploaded', belongs to the requested client and has the requested type. */
  lemma BulkDocumentsStartUploaded(client: ClientRecord, documentType: string, file: FileRef, user: User,
                                   id: Id, storedName: string, now: Time)
    ensures var d := BulkDocument(client, documentType, file, user, id, storedName, now);
            && d.id == id && d.status == "uploaded" && d.clientId == client.id
            && d.documentType == documentType && d.title == file.name && d.uploadedBy == Some(user.id)
  {
  }
}
