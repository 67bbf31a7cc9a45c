/**
 * Upload validation and filename sanitising (s3_storage/validators.py).
 *
 * Each validator either passes or fails with the reason Django's
 * `ValidationError` would carry.  The MIME type that python-magic sniffs
 * from the first 2048 bytes is an input here.
 */
module Validators {
  import opened Wrappers
  import opened Strings

  /** MIME type -> accepted extensions, in the source's order. */
  const AllowedDocumentTypes: map<string, seq<string>> := map[
    "application/pdf" := [".pdf"],
    "image/jpeg" := [".jpg", ".jpeg"],
    "image/png" := [".png"],
    "application/msword" := [".doc"],
    "application/vnd.openxmlformats-officedocument.wordprocessingml.document" := [".docx"]
  ]

  /** The keys of AllowedDocumentTypes in dictionary order, as the error message lists them. */
  const AllowedMimeTypes: seq<string> := [
    "application/pdf",
    "image/jpeg",
    "image/png",
    "application/msword",
    "application/vnd.openxmlformats-officedocument.wordprocessingml.document"
  ]

  /** Default of the MAX_UPLOAD_SIZE setting: 50 MB. */
  const MaxUploadSize: nat := 52428800

  /** Fragments `validate_filename` refuses, checked in this order. */
  const DangerousChars: seq<string> := ["..", "/", "\\", "<", ">", ":", "\"", "|", "?", "*"]

  datatype ValidationError =
    | FileTooLarge(maxSize: nat)
    | FileTypeNotAllowed(mime: string, allowed: seq<string>)
    | InvalidCharacter(fragment: string)
    | InvalidFilename

  /** Outcome of a validator: it returns normally, or raises with a reason. */
  datatype Check = Pass | Fail(error: ValidationError)

  /** `validate_file_size`: refuses exactly the files larger than the limit. */
  function ValidateFileSize(size: nat, maxSize: nat): (r: Check)
    ensures r.Fail? <==> size > maxSize
    ensures r.Fail? ==> r.error == FileTooLarge(maxSize)
  {
    if size > maxSize then Fail(FileTooLarge(maxSize)) else Pass
  }

  /** With the default limit, a file of exactly 50 MB is accepted and one byte more is refused. */
  lemma DefaultSizeLimit()
    ensures MaxUploadSize == 50 * 1024 * 1024
    ensures ValidateFileSize(MaxUploadSize, MaxUploadSize) == Pass
    ensures ValidateFileSize(MaxUploadSize + 1, MaxUploadSize) == Fail(FileTooLarge(MaxUploadSize))
  {
  }

  /** Acceptance is downward closed: a smaller file than an accepted one is accepted too. */
  lemma SizeCheckMonotone(small: nat, large: nat, maxSize: nat)
    requires small <= large
    requires ValidateFileSize(large, maxSize) == Pass
    ensures ValidateFileSize(small, maxSize) == Pass
  {
  }

  /** `validate_file_type`, given the MIME type sniffed from the file's head. */
  function ValidateFileType(detectedMime: string): (r: Check)
    ensures r.Pass? <==> detectedMime in AllowedDocumentTypes
    ensures r.Fail? ==> r.error == FileTypeNotAllowed(detectedMime, AllowedMimeTypes)
  {
    if detectedMime !in AllowedDocumentTypes then Fail(FileTypeNotAllowed(detectedMime, AllowedMimeTypes))
    else Pass
  }

  /** The allow-list is exactly the five listed MIME types (and the error message lists each once). */
  lemma AllowListIsFiveTypes(mime: string)
    ensures ValidateFileType(mime).Pass? <==> mime in AllowedMimeTypes
    ensures |AllowedMimeTypes| == 5 && AllowedDocumentTypes.Keys == set m | m in AllowedMimeTypes
  {
  }

  /**
   * Index of the first candidate that occurs in `name`, scanning in list order
   * (the `for char in dangerous_chars` loop of `validate_filename`).
   */
  function FirstContained(name: string, candidates: seq<string>): (r: Option<nat>)
    ensures r.Some? ==> r.value < |candidates| && Contains(name, candidates[r.value])
    ensures r.Some? ==> forall j :: 0 <= j < r.value ==> !Contains(name, candidates[j])
    ensures r.None? <==> forall j :: 0 <= j < |candidates| ==> !Contains(name, candidates[j])
    decreases |candidates|
  {
    if |candidates| == 0 then None
    else if Contains(name, candidates[0]) then Some(0)
    else match FirstContained(name, candidates[1..])
      case None => None
      case Some(k) => Some(k + 1)
  }

  /** True when `name` holds none of the dangerous fragments. */
  predicate FreeOfDangerousChars(name: string)
  {
    forall j :: 0 <= j < |DangerousChars| ==> !Contains(name, DangerousChars[j])
  }

  /**
   * `validate_filename`: the first dangerous fragment found (in list order) is
   * reported; only a name free of them can then fail, for being empty or
   * starting with '.'.
   */
  function ValidateFilename(name: string): (r: Check)
    ensures r.Pass? <==> FreeOfDangerousChars(name) && |name| > 0 && name[0] != '.'
    ensures r.Fail? && r.error.InvalidCharacter? ==>
              exists k :: 0 <= k < |DangerousChars| && r.error.fragment == DangerousChars[k] && Contains(name, DangerousChars[k])
                && forall j :: 0 <= j < k ==> !Contains(name, DangerousChars[j])
    ensures r == Fail(InvalidFilename) <==> FreeOfDangerousChars(name) && (|name| == 0 || name[0] == '.')
    ensures r.Fail? ==> r.error.InvalidCharacter? || r.error == InvalidFilename
  {
    match FirstContained(name, DangerousChars)
    case Some(k) => Fail(InvalidCharacter(DangerousChars[k]))
    case None => if |name| == 0 || name[0] == '.' then Fail(InvalidFilename) else Pass
  }

  /** Python's `\w` restricted to ASCII: letters, digits and '_'. */
  predicate IsWordChar(c: char)
  {
    'a' <= c <= 'z' || 'A' <= c <= 'Z' || '0' <= c <= '9' || c == '_'
  }

  /** A character the `[^\w\-.]` substitution leaves in place. */
  predicate IsSafeChar(c: char)
  {
    IsWordChar(c) || c == '-' || c == '.'
  }

  /** `filename.replace(' ', '_')`. */
  function ReplaceSpaces(s: string): string
  {
    seq(|s|, i requires 0 <= i < |s| => if s[i] == ' ' then '_' else s[i])
  }

  /**
   * `re.sub(r'[^\w\-.]', '', s)`: the safe characters of `s`, in order; every
   * safe character survives as often as it occurs, every other one is dropped.
   */
  function KeepSafeChars(s: string): (r: string)
    ensures |r| <= |s|
    ensures forall i :: 0 <= i < |r| ==> IsSafeChar(r[i])
    ensures (forall i :: 0 <= i < |s| ==> IsSafeChar(s[i])) ==> r == s
    decreases |s|
  {
    if |s| == 0 then ""
    else (if IsSafeChar(s[0]) then [s[0]] else "") + KeepSafeChars(s[1..])
  }

  /** Every safe character survives the substitution as often as it occurs; every other one is dropped. */
  lemma {:induction false} KeepSafeCharsCounts(s: string, c: char)
    ensures multiset(KeepSafeChars(s))[c] == if IsSafeChar(c) then multiset(s)[c] else 0
    decreases |s|
  {
    if |s| > 0 {
      KeepSafeCharsCounts(s[1..], c);
      assert s == [s[0]] + s[1..];
    }
  }

  /** The substitution works character by character: the kept characters stay in their order. */
  lemma {:induction false} KeepSafeCharsAppend(a: string, b: string)
    ensures KeepSafeChars(a + b) == KeepSafeChars(a) + KeepSafeChars(b)
    decreases |a|
  {
    if |a| == 0 {
      assert a + b == b;
    } else {
      var keep := if IsSafeChar(a[0]) then [a[0]] else "";
      var rest := a[1..];
      assert (a + b)[0] == a[0] && (a + b)[1..] == rest + b;
      calc {
        KeepSafeChars(a + b);
        keep + KeepSafeChars(rest + b);
        { KeepSafeCharsAppend(rest, b); }
        keep + (KeepSafeChars(rest) + KeepSafeChars(b));
        (keep + KeepSafeChars(rest)) + KeepSafeChars(b);
        KeepSafeChars(a) + KeepSafeChars(b);
      }
    }
  }

  /** A text made only of unsafe characters is removed entirely. */
  lemma {:induction false} KeepSafeCharsDropsUnsafe(s: string)
    requires forall i :: 0 <= i < |s| ==> !IsSafeChar(s[i])
    ensures KeepSafeChars(s) == ""
    decreases |s|
  {
    if |s| > 0 {
      KeepSafeCharsDropsUnsafe(s[1..]);
    }
  }

  /** The text after the last '/' and then after the last '\': the path components are gone. */
  function BaseName(filename: string): string
  {
    LastSegment(LastSegment(filename, '/'), '\\')
  }

  /**
   * `sanitize_filename`: keep the last path component, turn spaces into '_',
   * drop everything but word characters, '-' and '.', and prefix a leading
   * '.' with "file".
   */
  function SanitizeFilename(filename: string): (r: string)
    ensures forall i :: 0 <= i < |r| ==> IsSafeChar(r[i])
    ensures |r| == 0 || r[0] != '.'
  {
    var kept := KeepSafeChars(ReplaceSpaces(BaseName(filename)));
    if |kept| > 0 && kept[0] == '.' then
      PrefixedNameSafe(kept);
      "file" + kept
    else kept
  }

  /** Prefixing "file" keeps every character safe. */
  lemma PrefixedNameSafe(kept: string)
    requires forall i :: 0 <= i < |kept| ==> IsSafeChar(kept[i])
    ensures forall i :: 0 <= i < |"file" + kept| ==> IsSafeChar(("file" + kept)[i])
  {
    var prefix := "file";
    assert IsSafeChar(prefix[0]) && IsSafeChar(prefix[1]) && IsSafeChar(prefix[2]) && IsSafeChar(prefix[3]);
    forall i | 0 <= i < |prefix + kept|
      ensures IsSafeChar((prefix + kept)[i])
    {
      if i < 4 {
        assert (prefix + kept)[i] == prefix[i];
      } else {
        assert (prefix + kept)[i] == kept[i - 4];
      }
    }
  }

  /** The sanitised name holds no path separator and no space. */
  lemma SanitizedHasNoSeparatorOrSpace(filename: string)
    ensures var r := SanitizeFilename(filename);
            '/' !in r && '\\' !in r && ' ' !in r
  {
    var r := SanitizeFilename(filename);
    assert !IsSafeChar('/') && !IsSafeChar('\\') && !IsSafeChar(' ');
  }

  /** A name made only of safe characters and not starting with '.' is left exactly as it is. */
  lemma SanitizeKeepsSafeNames(name: string)
    requires forall i :: 0 <= i < |name| ==> IsSafeChar(name[i])
    requires |name| == 0 || name[0] != '.'
    ensures SanitizeFilename(name) == name
  {
    assert '/' !in name && '\\' !in name;
    LastSegmentNoSep(name, '/');
    LastSegmentNoSep(name, '\\');
    assert ReplaceSpaces(name) == name;
  }

  /**
   * A bare name whose only unsafe characters are spaces comes back with each
   * space turned into '_' and every other character in place, behind "file"
   * when it starts with '.'.
   */
  lemma SanitizeTurnsSpacesIntoUnderscores(name: string)
    requires '/' !in name && '\\' !in name
    requires forall i :: 0 <= i < |name| ==> IsSafeChar(name[i]) || name[i] == ' '
    ensures var r := SanitizeFilename(name);
            var p := if |name| > 0 && name[0] == '.' then 4 else 0;
            && |r| == p + |name| && r[..p] == "file"[..p]
            && forall i :: 0 <= i < |name| ==> r[p + i] == (if name[i] == ' ' then '_' else name[i])
  {
    LastSegmentNoSep(name, '/');
    LastSegmentNoSep(name, '\\');
    var replaced := ReplaceSpaces(name);
    assert forall i :: 0 <= i < |replaced| ==> IsSafeChar(replaced[i]);
    assert KeepSafeChars(replaced) == replaced;
  }

  /** Sanitising twice is the same as sanitising once. */
  lemma SanitizeIdempotent(filename: string)
    ensures SanitizeFilename(SanitizeFilename(filename)) == SanitizeFilename(filename)
  {
    SanitizeKeepsSafeNames(SanitizeFilename(filename));
  }

  /** The base name of a path does not depend on anything before its last separator. */
  lemma BaseNameIgnoresDirectory(directory: string, sep: char, rest: string)
    requires sep == '/' || sep == '\\'
    ensures BaseName(directory + [sep] + rest) == BaseName(rest)
  {
    var full := directory + [sep] + rest;
    if sep == '/' {
      LastSegmentAfterSep(directory, '/', rest);
    } else if '/' in rest {
      assert full == (directory + [sep]) + rest;
      LastSegmentOfSuffix(directory + [sep], rest, '/');
    } else {
      assert full == directory + ([sep] + rest);
      LastSegmentAppend(directory, [sep] + rest, '/');
      var head := LastSegment(directory, '/');
      assert head + ([sep] + rest) == head + [sep] + rest;
      LastSegmentAfterSep(head, '\\', rest);
      LastSegmentNoSep(rest, '/');
    }
  }

  /** Only the text after the last separator matters: any directory part before a '/' or '\' is discarded. */
  lemma SanitizeIgnoresDirectory(directory: string, sep: char, rest: string)
    requires sep == '/' || sep == '\\'
    ensures SanitizeFilename(directory + [sep] + rest) == SanitizeFilename(rest)
  {
    BaseNameIgnoresDirectory(directory, sep, rest);
  }

  /** A name of safe characters does not contain an unsafe character. */
  lemma SafeNameLacksChar(name: string, c: char)
    requires forall i :: 0 <= i < |name| ==> IsSafeChar(name[i])
    requires !IsSafeChar(c)
    ensures !Contains(name, [c])
  {
    ContainsChar(name, c);
  }

  /** Every dangerous fragment after ".." is a single character the sanitiser removes. */
  lemma UnsafeSingleChars()
    ensures forall j :: 1 <= j < |DangerousChars| ==> |DangerousChars[j]| == 1 && !IsSafeChar(DangerousChars[j][0])
  {
  }

  /** A name of safe characters holds none of the single-character dangerous fragments. */
  lemma SafeNameHasNoUnsafeFragment(name: string)
    requires forall i :: 0 <= i < |name| ==> IsSafeChar(name[i])
    ensures forall j :: 1 <= j < |DangerousChars| ==> !Contains(name, DangerousChars[j])
  {
    UnsafeSingleChars();
    forall j | 1 <= j < |DangerousChars|
      ensures !Contains(name, DangerousChars[j])
    {
      var f := DangerousChars[j];
      assert f == [f[0]];
      SafeNameLacksChar(name, f[0]);
    }
  }

  /**
   * A sanitised name passes `validate_filename` except in two cases: it still
   * holds "..", or it came out empty.  No other dangerous fragment survives.
   */
  lemma SanitizedNameValidation(filename: string)
    ensures var r := SanitizeFilename(filename);
            var v := ValidateFilename(r);
            || v == Pass
            || (v == Fail(InvalidCharacter("..")) && Contains(r, ".."))
            || (v == Fail(InvalidFilename) && r == "")
  {
    var r := SanitizeFilename(filename);
    SafeNameHasNoUnsafeFragment(r);
    if !Contains(r, "..") {
      assert FreeOfDangerousChars(r);
    }
  }

  /** A bare name made only of characters the substitution removes, spaces excepted, sanitises to the empty name. */
  lemma SanitizeDropsUnsafeName(name: string)
    requires '/' !in name && '\\' !in name
    requires forall i :: 0 <= i < |name| ==> !IsSafeChar(name[i]) && name[i] != ' '
    ensures SanitizeFilename(name) == ""
  {
    LastSegmentNoSep(name, '/');
    LastSegmentNoSep(name, '\\');
    assert ReplaceSpaces(name) == name;
    KeepSafeCharsDropsUnsafe(name);
  }

  /** The empty name holds no dangerous fragment and is rejected as an invalid filename. */
  lemma EmptyNameInvalid()
    ensures ValidateFilename("") == Fail(InvalidFilename)
  {
    SafeNameHasNoUnsafeFragment("");
    assert !Contains("", DangerousChars[0]);
  }

  /** The first exception does happen: "a..b" is already safe, so it keeps its "..". */
  lemma SanitizedNameKeepsDoubleDot()
    ensures SanitizeFilename("a..b") == "a..b"
    ensures ValidateFilename(SanitizeFilename("a..b")) == Fail(InvalidCharacter(".."))
  {
    var name := "a..b";
    assert IsSafeChar('a') && IsSafeChar('.') && IsSafeChar('b');
    SanitizeKeepsSafeNames(name);
    assert ".." <= name[1..];
    assert Contains(name[1..], "..");
    assert Contains(name, DangerousChars[0]);
    assert FirstContained(name, DangerousChars) == Some(0);
  }

  /** The second exception does happen: "***" sanitises to the empty name. */
  lemma SanitizedNameCanBeEmpty()
    ensures SanitizeFilename("***") == ""
    ensures ValidateFilename(SanitizeFilename("***")) == Fail(InvalidFilename)
  {
    var stars := "***";
    assert forall i :: 0 <= i < |stars| ==> stars[i] == '*';
    SanitizeDropsUnsafeName(stars);
    EmptyNameInvalid();
  }
}
