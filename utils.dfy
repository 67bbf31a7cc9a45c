/**
 * Object-key construction for uploaded documents: `organize_document_path`
 * builds `clients/{client_id}/{document_type}/{timestamp}_{safe_name}`, with
 * the timestamp written by `strftime('%Y%m%d_%H%M%S')`.  The current time is a
 * parameter; the boto3 wrappers of the same file are not part of this module.
 */
module Utils {
  import opened Strings
  import opened Validators

  /** A moment as `timezone.now()` reports it, down to the second. */
  datatype DateTime = DateTime(year: int, month: int, day: int, hour: int, minute: int, second: int)

  /** The ranges a calendar moment's fields lie in; four-digit years only (`%Y` pads shorter years differently per platform). */
  predicate ValidDateTime(t: DateTime)
  {
    && 1000 <= t.year <= 9999
    && 1 <= t.month <= 12
    && 1 <= t.day <= 31
    && 0 <= t.hour < 24
    && 0 <= t.minute < 60
    && 0 <= t.second < 60
  }

  predicate IsDigit(c: char)
  {
    '0' <= c <= '9'
  }

  predicate AllDigits(s: string)
  {
    forall i :: 0 <= i < |s| ==> IsDigit(s[i])
  }

  function DigitChar(d: int): (c: char)
    requires 0 <= d < 10
    ensures IsDigit(c)
  {
    ('0' as int + d) as char
  }

  function DigitValue(c: char): (d: int)
    requires IsDigit(c)
    ensures 0 <= d < 10
  {
    c as int - '0' as int
  }

  function Pow10(n: nat): (p: nat)
    ensures p >= 1
  {
    if n == 0 then 1 else 10 * Pow10(n - 1)
  }

  /** `n` in decimal, zero-padded on the left to exactly `width` digits, as `%Y`, `%m`, `%d`, ... write it. */
  function PadDigits(n: nat, width: nat): (r: string)
    requires n < Pow10(width)
    ensures |r| == width
    ensures AllDigits(r)
    decreases width
  {
    if width == 0 then ""
    else
      assert n / 10 < Pow10(width - 1);
      PadDigits(n / 10, width - 1) + [DigitChar(n % 10)]
  }

  /** The number a string of decimal digits denotes. */
  function DigitsValue(s: string): nat
    requires AllDigits(s)
    decreases |s|
  {
    if |s| == 0 then 0 else 10 * DigitsValue(s[..|s| - 1]) + DigitValue(s[|s| - 1])
  }

  /** Reading the padded digits back gives the number that was written. */
  lemma {:induction false} PadDigitsRoundTrip(n: nat, width: nat)
    requires n < Pow10(width)
    ensures DigitsValue(PadDigits(n, width)) == n
    decreases width
  {
    if width > 0 {
      var r := PadDigits(n, width);
      assert n / 10 < Pow10(width - 1);
      assert r[..|r| - 1] == PadDigits(n / 10, width - 1);
      PadDigitsRoundTrip(n / 10, width - 1);
    }
  }

  /** The shape `strftime('%Y%m%d_%H%M%S')` always has: fifteen characters, digits around an underscore at index 8. */
  predicate TimestampShape(s: string)
  {
    && |s| == 15
    && s[8] == '_'
    && AllDigits(s[..8])
    && AllDigits(s[9..])
  }

  /** `timezone.now().strftime('%Y%m%d_%H%M%S')`. */
  function FormatTimestamp(t: DateTime): (s: string)
    requires ValidDateTime(t)
    ensures TimestampShape(s)
  {
    var date := PadDigits(t.year, 4) + PadDigits(t.month, 2) + PadDigits(t.day, 2);
    var time := PadDigits(t.hour, 2) + PadDigits(t.minute, 2) + PadDigits(t.second, 2);
    var s := date + "_" + time;
    assert s[..8] == date && s[9..] == time;
    s
  }

  /** Reading a `%Y%m%d_%H%M%S` timestamp back into its fields. */
  function ParseTimestamp(s: string): DateTime
    requires TimestampShape(s)
  {
    var date, time := s[..8], s[9..];
    DateTime(DigitsValue(date[..4]), DigitsValue(date[4..6]), DigitsValue(date[6..8]),
             DigitsValue(time[..2]), DigitsValue(time[2..4]), DigitsValue(time[4..6]))
  }

  /** The three pieces of a concatenation can be sliced back out of it. */
  lemma SliceThree(a: string, b: string, c: string)
    ensures var s := a + b + c;
            s[..|a|] == a && s[|a|..|a| + |b|] == b && s[|a| + |b|..] == c
  {
  }

  /** The timestamp loses nothing: distinct moments give distinct timestamps, and each can be read back. */
  lemma TimestampRoundTrip(t: DateTime)
    requires ValidDateTime(t)
    ensures ParseTimestamp(FormatTimestamp(t)) == t
  {
    var year, month, day := PadDigits(t.year, 4), PadDigits(t.month, 2), PadDigits(t.day, 2);
    var hour, minute, second := PadDigits(t.hour, 2), PadDigits(t.minute, 2), PadDigits(t.second, 2);
    var date, time := year + month + day, hour + minute + second;
    var s := FormatTimestamp(t);
    assert s == date + "_" + time;
    assert s[..8] == date && s[9..] == time;
    SliceThree(year, month, day);
    SliceThree(hour, minute, second);
    assert s[..8][..4] == year && s[..8][4..6] == month && s[..8][6..8] == day;
    assert s[9..][..2] == hour && s[9..][2..4] == minute && s[9..][4..6] == second;
    assert ParseTimestamp(s) == DateTime(DigitsValue(year), DigitsValue(month), DigitsValue(day),
                                         DigitsValue(hour), DigitsValue(minute), DigitsValue(second));
    PadDigitsRoundTrip(t.year, 4);
    PadDigitsRoundTrip(t.month, 2);
    PadDigitsRoundTrip(t.day, 2);
    PadDigitsRoundTrip(t.hour, 2);
    PadDigitsRoundTrip(t.minute, 2);
    PadDigitsRoundTrip(t.second, 2);
  }

  /** A timestamp holds digits and one underscore, so no '/'. */
  lemma TimestampHasNoSlash(s: string)
    requires TimestampShape(s)
    ensures '/' !in s
  {
    forall i | 0 <= i < |s|
      ensures s[i] != '/'
    {
      if i < 8 {
        assert s[i] == s[..8][i];
      } else if i > 8 {
        assert s[i] == s[9..][i - 9];
      }
    }
  }

  /** The last path segment of a document key: the timestamp, '_', and the sanitised file name. */
  function FileSegment(filename: string, now: DateTime): (seg: string)
    requires ValidDateTime(now)
    ensures '/' !in seg
    ensures |seg| > 16 ==> seg[16] != '.'
  {
    var ts := FormatTimestamp(now);
    var safe := SanitizeFilename(filename);
    SanitizedHasNoSeparatorOrSpace(filename);
    TimestampHasNoSlash(ts);
    var seg := ts + "_" + safe;
    assert |seg| > 16 ==> seg[16] == safe[0];
    seg
  }

  /** `organize_document_path(client_id, document_type, filename)` at the moment `now`. */
  function OrganizeDocumentPath(clientId: string, documentType: string, filename: string, now: DateTime): (key: string)
    requires ValidDateTime(now)
    ensures "clients/" <= key
    ensures |key| > 0 && key[|key| - 1] != '/'
  {
    var seg := FileSegment(filename, now);
    "clients/" + clientId + "/" + documentType + "/" + seg
  }

  /** Joining four parts puts the separator between each neighbouring pair. */
  lemma JoinFour(a: string, b: string, c: string, d: string, sep: char)
    ensures Join([a, b, c, d], sep) == a + [sep] + b + [sep] + c + [sep] + d
  {
    var parts := [a, b, c, d];
    assert parts[1..] == [b, c, d] && parts[1..][1..] == [c, d] && parts[1..][1..][1..] == [d];
    assert Join([c, d], sep) == c + [sep] + d;
    assert Join([b, c, d], sep) == b + [sep] + (c + [sep] + d);
    assert Join(parts, sep) == a + [sep] + (b + [sep] + (c + [sep] + d));
  }

  /** The key is the four fields joined by '/', behind the fixed "clients" prefix. */
  lemma DocumentPathIsJoin(clientId: string, documentType: string, filename: string, now: DateTime)
    requires ValidDateTime(now)
    ensures OrganizeDocumentPath(clientId, documentType, filename, now)
         == Join(["clients", clientId, documentType, FileSegment(filename, now)], '/')
  {
    var seg := FileSegment(filename, now);
    JoinFour("clients", clientId, documentType, seg, '/');
    assert "clients/" == "clients" + ['/'];
    assert "/" == ['/'];
  }

  /** Four separator-free parts joined by the separator split back into those four parts. */
  lemma SplitFour(a: string, b: string, c: string, d: string, sep: char)
    requires sep !in a && sep !in b && sep !in c && sep !in d
    ensures Split(Join([a, b, c, d], sep), sep) == [a, b, c, d]
  {
    var parts := [a, b, c, d];
    assert forall i :: 0 <= i < |parts| ==> sep !in parts[i];
    SplitJoin(parts, sep);
  }

  /** With a '/'-free client id and document type, the key has exactly four '/'-separated segments, in order. */
  lemma DocumentPathSegments(clientId: string, documentType: string, filename: string, now: DateTime)
    requires ValidDateTime(now)
    requires '/' !in clientId && '/' !in documentType
    ensures Split(OrganizeDocumentPath(clientId, documentType, filename, now), '/')
         == ["clients", clientId, documentType, FileSegment(filename, now)]
  {
    var seg := FileSegment(filename, now);
    DocumentPathIsJoin(clientId, documentType, filename, now);
    assert '/' !in "clients";
    SplitFour("clients", clientId, documentType, seg, '/');
  }

  /** Whatever the client id and document type hold, the last segment of the key is the timestamped file name. */
  lemma DocumentPathFileSegment(clientId: string, documentType: string, filename: string, now: DateTime)
    requires ValidDateTime(now)
    ensures LastSegment(OrganizeDocumentPath(clientId, documentType, filename, now), '/') == FileSegment(filename, now)
  {
    var seg := FileSegment(filename, now);
    var prefix := "clients/" + clientId + "/" + documentType;
    assert OrganizeDocumentPath(clientId, documentType, filename, now) == prefix + ['/'] + seg;
    LastSegmentAfterSep(prefix, '/', seg);
    LastSegmentNoSep(seg, '/');
  }

  /** The last segment gives back the upload moment (its first fifteen characters) and the sanitised name (after index 16). */
  lemma FileSegmentRoundTrip(filename: string, now: DateTime)
    requires ValidDateTime(now)
    ensures var seg := FileSegment(filename, now);
            && |seg| >= 16 && seg[15] == '_'
            && TimestampShape(seg[..15]) && ParseTimestamp(seg[..15]) == now
            && seg[16..] == SanitizeFilename(filename)
  {
    var seg := FileSegment(filename, now);
    var ts := FormatTimestamp(now);
    assert seg[..15] == ts;
    TimestampRoundTrip(now);
  }
}
