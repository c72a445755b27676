/** The file routes of the web UI: the extension test `allowed_file`, the
    listing of `get_uploaded_files` (regular, non-hidden files sorted by
    name) and the validation order of `upload_file`. The directory listing
    is an input sequence; `secure_filename` is a parameter. */
module Upload {
  import opened Wrappers
  import opened PyStr

  const AllowedExtensions: set<string> := {"pdf", "txt", "md", "jpg", "jpeg", "png"}

  /** `filename.rsplit('.', 1)[1].lower()` when there is a dot. */
  function ExtOf(name: string): Option<string> {
    var r := RFind(name, '.');
    if r != -1 then Some(Lower(name[r + 1..])) else None
  }

  /** `allowed_file(filename)`: there is a dot, and the text after the last
      dot, lower-cased, is one of the allowed extensions. */
  predicate AllowedFile(name: string) {
    ExtOf(name).Some? && ExtOf(name).value in AllowedExtensions
  }

  // ------------------------------------------------------------------ the extension test

  /** The last dot of `pre + "." + ext` is the one before `ext` when `ext`
      has none. */
  lemma LastDot(pre: string, ext: string)
    requires '.' !in ext
    ensures RFind(pre + "." + ext, '.') == |pre|
    ensures (pre + "." + ext)[|pre| + 1..] == ext
  {
    var s := pre + "." + ext;
    assert s[|pre|] == '.';
    assert s[|pre| + 1..] == ext;
    forall j | |pre| < j < |s|
      ensures s[j] != '.'
    {
      assert s[j] == ext[j - |pre| - 1];
    }
    var r := RFind(s, '.');
    assert r >= |pre|;
  }

  /** A name without a dot is refused. */
  lemma AllowedNeedsDot(name: string)
    requires '.' !in name
    ensures !AllowedFile(name)
  {
  }

  /** A name is accepted exactly when its last extension, lower-cased, is
      allowed; what comes before the last dot does not matter. */
  lemma AllowedFileSplit(pre: string, ext: string)
    requires '.' !in ext
    ensures AllowedFile(pre + "." + ext) <==> Lower(ext) in AllowedExtensions
  {
    LastDot(pre, ext);
  }

  /** Lower-casing leaves the position of the last dot alone. */
  lemma RFindLower(s: string)
    ensures RFind(Lower(s), '.') == RFind(s, '.')
  {
    var t := Lower(s);
    forall j | 0 <= j < |s|
      ensures t[j] == '.' <==> s[j] == '.'
    {
      LowerDot(s[j]);
    }
    var a := RFind(s, '.');
    var b := RFind(t, '.');
    assert a >= 0 ==> t[a] == '.';
    assert b >= 0 ==> s[b] == '.';
  }

  /** Lower-casing twice is lower-casing once. */
  lemma LowerIdempotent(s: string)
    ensures Lower(Lower(s)) == Lower(s)
  {
  }

  /** Lower-casing a tail of a lower-cased name changes nothing further. */
  lemma LowerTail(name: string, r: int)
    requires -1 <= r < |name|
    ensures Lower(Lower(name)[r + 1..]) == Lower(name[r + 1..])
  {
    assert Lower(name)[r + 1..] == Lower(name[r + 1..]);
    LowerIdempotent(name[r + 1..]);
  }

  /** Lower-casing a name leaves its lower-cased extension alone. */
  lemma ExtOfLower(name: string)
    ensures ExtOf(Lower(name)) == ExtOf(name)
  {
    var r := RFind(name, '.');
    RFindLower(name);
    LowerTail(name, r);
    ExtOfAt(name, r);
    ExtOfAt(Lower(name), r);
  }

  /** `ExtOf` given the position of the last dot. */
  lemma ExtOfAt(s: string, r: int)
    requires r == RFind(s, '.')
    ensures ExtOf(s) == if r != -1 then Some(Lower(s[r + 1..])) else None
  {
  }

  /** The test ignores case: a name is accepted exactly when its lower-case
      form is. */
  lemma AllowedCaseInsensitive(name: string)
    ensures AllowedFile(Lower(name)) <==> AllowedFile(name)
  {
    ExtOfLower(name);
  }

  /** An upper-case extension is accepted. */
  lemma AllowedUpperPdf()
    ensures AllowedFile("report.PDF")
  {
    AllowedFileSplit("report", "PDF");
    assert Lower("PDF") == "pdf";
  }

  // ------------------------------------------------------------------ the listing

  /** One entry of the upload folder. */
  datatype DirEntry = DirEntry(name: string, isFile: bool, size: nat)

  /** One row of the listing. */
  datatype FileInfo = FileInfo(name: string, size: nat, extension: string)

  /** `PurePath.suffix`: from the last dot on, unless that dot starts the
      name or ends it. */
  function Suffix(name: string): string {
    var i := RFind(name, '.');
    if 0 < i < |name| - 1 then name[i..] else ""
  }

  /** `f.is_file() and not f.name.startswith('.')` */
  predicate Listed(e: DirEntry) {
    e.isFile && !StartsWith(e.name, ".")
  }

  function Info(e: DirEntry): FileInfo {
    FileInfo(e.name, e.size, Lower(Suffix(e.name)))
  }

  /** The rows collected by the loop, in folder order. */
  function Visible(entries: seq<DirEntry>): seq<FileInfo> {
    if entries == [] then []
    else (if Listed(entries[0]) then [Info(entries[0])] else []) + Visible(entries[1..])
  }

  /** `sorted(..., key=name)` by insertion: `x` goes before the first row
      whose name it does not exceed. */
  function Insert(x: FileInfo, s: seq<FileInfo>): seq<FileInfo> {
    if s == [] then [x]
    else if StrLe(x.name, s[0].name) then [x] + s
    else [s[0]] + Insert(x, s[1..])
  }

  function SortByName(s: seq<FileInfo>): seq<FileInfo> {
    if s == [] then [] else Insert(s[0], SortByName(s[1..]))
  }

  /** `get_uploaded_files()`; `present` is whether the folder exists. */
  function GetUploadedFiles(present: bool, entries: seq<DirEntry>): seq<FileInfo> {
    if present then SortByName(Visible(entries)) else []
  }

  predicate SortedByName(s: seq<FileInfo>) {
    forall i | 0 <= i < |s| - 1 :: StrLe(s[i].name, s[i + 1].name)
  }

  /** The rows are exactly the regular, non-hidden entries. */
  lemma {:induction false} VisibleSpec(entries: seq<DirEntry>, e: DirEntry)
    ensures e in entries && Listed(e) ==> Info(e) in Visible(entries)
    ensures forall i | 0 <= i < |Visible(entries)| :: !StartsWith(Visible(entries)[i].name, ".")
    ensures |Visible(entries)| <= |entries|
    decreases |entries|
  {
    if entries != [] {
      VisibleSpec(entries[1..], e);
      if e != entries[0] && e in entries {
        assert e in entries[1..];
      }
    }
  }

  /** Every row comes from a listed entry. */
  lemma {:induction false} VisibleSound(entries: seq<DirEntry>, x: FileInfo)
    requires x in Visible(entries)
    ensures exists e :: e in entries && Listed(e) && Info(e) == x
    decreases |entries|
  {
    if x != Info(entries[0]) || !Listed(entries[0]) {
      VisibleSound(entries[1..], x);
      var e :| e in entries[1..] && Listed(e) && Info(e) == x;
      assert e in entries;
    }
  }

  lemma {:induction false} InsertPerm(x: FileInfo, s: seq<FileInfo>)
    ensures multiset(Insert(x, s)) == multiset{x} + multiset(s)
    decreases |s|
  {
    if s != [] && !StrLe(x.name, s[0].name) {
      InsertPerm(x, s[1..]);
      assert s == [s[0]] + s[1..];
    }
  }

  lemma {:induction false} InsertSorted(x: FileInfo, s: seq<FileInfo>)
    requires SortedByName(s)
    ensures SortedByName(Insert(x, s))
    ensures Insert(x, s)[0] == x || (s != [] && Insert(x, s)[0] == s[0])
    decreases |s|
  {
    if s != [] && !StrLe(x.name, s[0].name) {
      InsertSorted(x, s[1..]);
      StrLeTotal(x.name, s[0].name);
      var r := Insert(x, s[1..]);
      assert Insert(x, s) == [s[0]] + r;
      assert s[1..] != [] ==> StrLe(s[0].name, s[1].name);
    }
  }

  /** Sorting yields the same rows in name order. */
  lemma {:induction false} SortByNameSpec(s: seq<FileInfo>)
    ensures SortedByName(SortByName(s))
    ensures multiset(SortByName(s)) == multiset(s)
    decreases |s|
  {
    if s != [] {
      SortByNameSpec(s[1..]);
      InsertSorted(s[0], SortByName(s[1..]));
      InsertPerm(s[0], SortByName(s[1..]));
      assert s == [s[0]] + s[1..];
    }
  }

  /** Adjacent order extends to every pair, by transitivity. */
  lemma {:induction false} SortedPairwise(s: seq<FileInfo>, i: nat, j: nat)
    requires SortedByName(s) && i <= j < |s|
    ensures StrLe(s[i].name, s[j].name)
    decreases j - i
  {
    if i == j {
      StrLeTotal(s[i].name, s[i].name);
    } else {
      SortedPairwise(s, i + 1, j);
      StrLeTrans(s[i].name, s[i + 1].name, s[j].name);
    }
  }

  /** The listing is the visible rows, each once as often as in the folder,
      in name order; a missing folder lists nothing. */
  lemma GetUploadedFilesSpec(present: bool, entries: seq<DirEntry>)
    ensures !present ==> GetUploadedFiles(present, entries) == []
    ensures present ==> multiset(GetUploadedFiles(present, entries)) == multiset(Visible(entries))
    ensures SortedByName(GetUploadedFiles(present, entries))
  {
    SortByNameSpec(Visible(entries));
  }

  // ------------------------------------------------------------------ the upload

  /** The three refusals of `upload_file`, each answered with status 400. */
  datatype UploadError = NoFileProvided | NoFileSelected | TypeNotAllowed

  datatype UploadOutcome = Refused(status: nat, error: UploadError) | Saved(filename: string)

  /** `upload_file()`: `file` is the `file` part of the request, if any;
      `secure` is `secure_filename`. */
  function UploadFile(file: Option<string>, secure: string -> string): UploadOutcome {
    match file
    case None => Refused(400, NoFileProvided)
    case Some(name) =>
      if name == "" then Refused(400, NoFileSelected)
      else if !AllowedFile(name) then Refused(400, TypeNotAllowed)
      else Saved(secure(name))
  }

  /** The checks run in order: a missing part, then an empty name, then the
      extension; all refusals are 400, and a file is saved, under its
      secured name, exactly when its name passes the extension test. */
  lemma UploadValidationOrder(file: Option<string>, secure: string -> string)
    ensures UploadFile(file, secure).Refused? ==> UploadFile(file, secure).status == 400
    ensures UploadFile(file, secure) == Refused(400, NoFileProvided) <==> file.None?
    ensures UploadFile(file, secure) == Refused(400, NoFileSelected) <==> file == Some("")
    ensures UploadFile(file, secure) == Refused(400, TypeNotAllowed) <==>
      file.Some? && file.value != "" && !AllowedFile(file.value)
    ensures UploadFile(file, secure).Saved? <==> file.Some? && AllowedFile(file.value)
    ensures UploadFile(file, secure).Saved? ==> UploadFile(file, secure).filename == secure(file.value)
  {
  }
}
