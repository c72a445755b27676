/** `FileReader.read_files`: every listed name is tested against the
    suffixes `.pdf`, `.txt`, `.md` and then the image suffixes, in that
    order and case-sensitively, and its path is appended to the first
    bucket that matches. The directory listing is an input sequence and the
    path built from a name (`os.path.abspath(os.path.join(folder, name))`)
    is a parameter. */
module FileReader {
  import opened Wrappers
  import opened PyStr
  import opened Upload

  datatype Kind = Pdf | Text | Markdown | Image

  /** `name.endswith("." + ext)` */
  predicate HasExt(name: string, ext: string) {
    EndsWith(name, "." + ext)
  }

  /** The bucket the `if`/`elif` chain picks, or `None` for a file it
      skips. */
  function Classify(name: string): Option<Kind> {
    if HasExt(name, "pdf") then Some(Pdf)
    else if HasExt(name, "txt") then Some(Text)
    else if HasExt(name, "md") then Some(Markdown)
    else if HasExt(name, "jpg") || HasExt(name, "jpeg") || HasExt(name, "png") then Some(Image)
    else None
  }

  /** The name ends in one of the suffixes that lead to bucket `k`. */
  predicate EndsInKind(name: string, k: Kind) {
    match k
    case Pdf => HasExt(name, "pdf")
    case Text => HasExt(name, "txt")
    case Markdown => HasExt(name, "md")
    case Image => HasExt(name, "jpg") || HasExt(name, "jpeg") || HasExt(name, "png")
  }

  /** The key of each bucket in the returned dictionary. */
  function KeyOf(k: Kind): string {
    match k
    case Pdf => "pdf"
    case Text => "text"
    case Markdown => "markdown"
    case Image => "image"
  }

  type Classifier = string -> Option<Kind>

  /** The paths of the listed names that `classify` sends to `k`, in
      listing order. */
  function Bucket(classify: Classifier, listing: seq<string>, path: string -> string, k: Kind): seq<string> {
    if listing == [] then []
    else (if classify(listing[0]) == Some(k) then [path(listing[0])] else []) + Bucket(classify, listing[1..], path, k)
  }

  /** The names `classify` sends nowhere. */
  function Skipped(classify: Classifier, listing: seq<string>): seq<string> {
    if listing == [] then []
    else (if classify(listing[0]).None? then [listing[0]] else []) + Skipped(classify, listing[1..])
  }

  /** The dictionary `read_files` returns, for a given classifier. */
  function ReadFilesWith(classify: Classifier, listing: seq<string>, path: string -> string): (r: map<string, seq<string>>)
    ensures r.Keys == {"pdf", "text", "markdown", "image"}
    ensures forall k: Kind :: KeyOf(k) in r && r[KeyOf(k)] == Bucket(classify, listing, path, k)
  {
    map[KeyOf(Pdf) := Bucket(classify, listing, path, Pdf),
        KeyOf(Text) := Bucket(classify, listing, path, Text),
        KeyOf(Markdown) := Bucket(classify, listing, path, Markdown),
        KeyOf(Image) := Bucket(classify, listing, path, Image)]
  }

  /** `read_files()` as written: case-sensitive suffixes. */
  function ReadFiles(listing: seq<string>, path: string -> string): map<string, seq<string>> {
    ReadFilesWith(Classify, listing, path)
  }

  // ------------------------------------------------------------------ the classifier

  /** A name ending in `.ext` ends in the last two characters of `ext`. */
  lemma HasExtTail(name: string, e: string)
    requires HasExt(name, e) && |e| >= 2
    ensures name[|name| - 1] == e[|e| - 1] && name[|name| - 2] == e[|e| - 2]
  {
    var n := |name|;
    assert name[n - |e| - 1..][|e|] == name[n - 1];
    assert name[n - |e| - 1..][|e| - 1] == name[n - 2];
  }

  /** The `elif` order never matters: no name ends in the suffixes of two
      buckets, and a name lands in `k` exactly when it ends in one of `k`'s
      suffixes. */
  lemma ClassifySpec(name: string, k: Kind)
    ensures Classify(name) == Some(k) <==> EndsInKind(name, k)
  {
    if HasExt(name, "pdf") { HasExtTail(name, "pdf"); }
    if HasExt(name, "txt") { HasExtTail(name, "txt"); }
    if HasExt(name, "md") { HasExtTail(name, "md"); }
    if HasExt(name, "jpg") { HasExtTail(name, "jpg"); }
    if HasExt(name, "jpeg") { HasExtTail(name, "jpeg"); }
    if HasExt(name, "png") { HasExtTail(name, "png"); }
  }

  /** A name is skipped exactly when it ends in none of the six suffixes. */
  lemma ClassifySkips(name: string)
    ensures Classify(name).None? <==> forall e | e in AllowedExtensions :: !HasExt(name, e)
  {
  }

  // ------------------------------------------------------------------ the buckets

  /** Bucketing a concatenation buckets each part, in order: the listing
      order survives inside every bucket. */
  lemma {:induction false} BucketAppend(classify: Classifier, a: seq<string>, b: seq<string>, path: string -> string, k: Kind)
    ensures Bucket(classify, a + b, path, k) == Bucket(classify, a, path, k) + Bucket(classify, b, path, k)
    decreases |a|
  {
    if a == [] {
      assert a + b == b;
    } else {
      assert (a + b)[0] == a[0];
      assert (a + b)[1..] == a[1..] + b;
      BucketAppend(classify, a[1..], b, path, k);
    }
  }

  /** A bucket holds the path of each name classified into it. */
  lemma {:induction false} BucketMember(classify: Classifier, listing: seq<string>, path: string -> string, k: Kind, name: string)
    requires name in listing && classify(name) == Some(k)
    ensures path(name) in Bucket(classify, listing, path, k)
    decreases |listing|
  {
    if name != listing[0] {
      assert name in listing[1..];
      BucketMember(classify, listing[1..], path, k, name);
    }
  }

  /** A bucket holds nothing but paths of names classified into it. */
  lemma {:induction false} BucketSound(classify: Classifier, listing: seq<string>, path: string -> string, k: Kind, i: nat)
    requires i < |Bucket(classify, listing, path, k)|
    ensures exists f :: f in listing && classify(f) == Some(k) && path(f) == Bucket(classify, listing, path, k)[i]
    decreases |listing|
  {
    var head := if classify(listing[0]) == Some(k) then [path(listing[0])] else [];
    var rest := Bucket(classify, listing[1..], path, k);
    assert Bucket(classify, listing, path, k) == head + rest;
    if i < |head| {
      assert listing[0] in listing;
    } else {
      BucketSound(classify, listing[1..], path, k, i - |head|);
      var f :| f in listing[1..] && classify(f) == Some(k) && path(f) == rest[i - |head|];
      assert f in listing;
    }
  }

  /** Every name lands in exactly one bucket or is skipped: the four
      buckets and the skipped names together account for the listing. */
  lemma {:induction false} BucketsPartition(classify: Classifier, listing: seq<string>, path: string -> string)
    ensures |Bucket(classify, listing, path, Pdf)| + |Bucket(classify, listing, path, Text)|
      + |Bucket(classify, listing, path, Markdown)| + |Bucket(classify, listing, path, Image)|
      + |Skipped(classify, listing)| == |listing|
    decreases |listing|
  {
    if listing != [] {
      BucketsPartition(classify, listing[1..], path);
      var c := classify(listing[0]);
      assert |Skipped(classify, listing)| == (if c.None? then 1 else 0) + |Skipped(classify, listing[1..])|;
      assert |Bucket(classify, listing, path, Pdf)| == (if c == Some(Pdf) then 1 else 0) + |Bucket(classify, listing[1..], path, Pdf)|;
      assert |Bucket(classify, listing, path, Text)| == (if c == Some(Text) then 1 else 0) + |Bucket(classify, listing[1..], path, Text)|;
      assert |Bucket(classify, listing, path, Markdown)| == (if c == Some(Markdown) then 1 else 0) + |Bucket(classify, listing[1..], path, Markdown)|;
      assert |Bucket(classify, listing, path, Image)| == (if c == Some(Image) then 1 else 0) + |Bucket(classify, listing[1..], path, Image)|;
      match c {
        case None =>
        case Some(kind) =>
          match kind {
            case Pdf => case Text => case Markdown => case Image =>
          }
      }
    }
  }

  /** The skipped names are exactly the listed ones no bucket claims. */
  lemma {:induction false} SkippedMember(classify: Classifier, listing: seq<string>, name: string)
    ensures name in Skipped(classify, listing) <==> name in listing && classify(name).None?
    decreases |listing|
  {
    if listing != [] {
      SkippedMember(classify, listing[1..], name);
      assert listing == [listing[0]] + listing[1..];
    }
  }

  // ------------------------------------------------------------------ upload versus reader

  /** A name ending in `.ext` has `ext` after its last dot. */
  lemma HasExtGivesLastDot(t: string, e: string)
    requires '.' !in e && HasExt(t, e)
    ensures '.' in t && t[RFind(t, '.') + 1..] == e
  {
    var pre := t[..|t| - |e| - 1];
    assert t == pre + t[|t| - |e| - 1..];
    assert t[|t| - |e| - 1..] == "." + e;
    assert t == pre + "." + e;
    LastDot(pre, e);
  }

  /** A name with `ext` after its last dot ends in `.ext`. */
  lemma LastDotGivesHasExt(t: string, e: string)
    requires '.' in t && t[RFind(t, '.') + 1..] == e
    ensures HasExt(t, e)
  {
    var r := RFind(t, '.');
    assert t[r..] == "." + e by {
      assert t[r..] == [t[r]] + t[r + 1..];
    }
    assert |t| - |"." + e| == r;
  }

  /** A name ends in `.ext` exactly when `ext` is what follows its last dot. */
  lemma HasExtLastDot(t: string, e: string)
    requires '.' !in e
    ensures HasExt(t, e) <==> '.' in t && t[RFind(t, '.') + 1..] == e
  {
    if HasExt(t, e) {
      HasExtGivesLastDot(t, e);
    }
    if '.' in t && t[RFind(t, '.') + 1..] == e {
      LastDotGivesHasExt(t, e);
    }
  }

  /** A tail of a lower-cased name is already lower case. */
  lemma LowerOfLowered(name: string, i: nat)
    requires i <= |name|
    ensures Lower(Lower(name)[i..]) == Lower(name)[i..]
  {
  }

  /** `HasExtLastDot` given the position of the last dot. */
  lemma HasExtAt(t: string, e: string, r: int)
    requires r == RFind(t, '.') && '.' !in e
    ensures HasExt(t, e) <==> r != -1 && t[r + 1..] == e
  {
    HasExtLastDot(t, e);
  }

  /** The reader's suffix test asks whether what follows the last dot is
      one of the upload route's extensions. */
  lemma SuffixIsExtension(t: string, r: int)
    requires r == RFind(t, '.')
    ensures Classify(t).Some? <==> r != -1 && t[r + 1..] in AllowedExtensions
  {
    var x := t[r + 1..];
    assert Classify(t).Some? <==> r != -1 && (x == "pdf" || x == "txt" || x == "md" || x == "jpg" || x == "jpeg" || x == "png") by {
      HasExtAt(t, "pdf", r);
      HasExtAt(t, "txt", r);
      HasExtAt(t, "md", r);
      HasExtAt(t, "jpg", r);
      HasExtAt(t, "jpeg", r);
      HasExtAt(t, "png", r);
    }
    AllowedExtensionsMembers(x);
  }

  /** Membership in the extension set, one extension at a time. */
  lemma AllowedExtensionsMembers(x: string)
    ensures x in AllowedExtensions <==> x == "pdf" || x == "txt" || x == "md" || x == "jpg" || x == "jpeg" || x == "png"
  {
  }

  /** The upload test on a lower-case name is the reader's suffix test. */
  lemma AllowedLowerIsSuffix(name: string)
    ensures AllowedFile(Lower(name)) <==> Classify(Lower(name)).Some?
  {
    var t := Lower(name);
    var r := RFind(t, '.');
    assert Lower(t[r + 1..]) == t[r + 1..] by {
      LowerOfLowered(name, r + 1);
    }
    AllowedIsSuffix(t, r);
  }

  /** On a name whose extension is already lower case, the upload test is
      the reader's suffix test. */
  lemma AllowedIsSuffix(t: string, r: int)
    requires r == RFind(t, '.') && Lower(t[r + 1..]) == t[r + 1..]
    ensures AllowedFile(t) <==> Classify(t).Some?
  {
    AllowedFileAt(t, r);
    SuffixIsExtension(t, r);
  }

  /** The upload test, given the last dot and an extension already in
      lower case. */
  lemma AllowedFileAt(t: string, r: int)
    requires r == RFind(t, '.') && Lower(t[r + 1..]) == t[r + 1..]
    ensures AllowedFile(t) <==> r != -1 && t[r + 1..] in AllowedExtensions
  {
    ExtOfAt(t, r);
  }

  /** The reader drops a file the upload route accepts: `report.PDF` passes
      `allowed_file` but ends in none of the case-sensitive suffixes, so it
      is in no bucket. */
  lemma UploadedButSkipped(path: string -> string)
    ensures AllowedFile("report.PDF")
    ensures Classify("report.PDF").None?
    ensures forall k: Kind :: ReadFiles(["report.PDF"], path)[KeyOf(k)] == []
  {
    AllowedUpperPdf();
    ReportPdfUnclassified();
    UnclassifiedAlone("report.PDF", path);
  }

  /** `report.PDF` ends in an upper-case letter, so in none of the suffixes. */
  lemma ReportPdfUnclassified()
    ensures Classify("report.PDF").None?
  {
    var s := "report.PDF";
    assert s[|s| - 1] == 'F';
    if HasExt(s, "pdf") { HasExtTail(s, "pdf"); }
    if HasExt(s, "txt") { HasExtTail(s, "txt"); }
    if HasExt(s, "md") { HasExtTail(s, "md"); }
    if HasExt(s, "jpg") { HasExtTail(s, "jpg"); }
    if HasExt(s, "jpeg") { HasExtTail(s, "jpeg"); }
    if HasExt(s, "png") { HasExtTail(s, "png"); }
  }

  /** A listing of one unclassified name fills no bucket. */
  lemma UnclassifiedAlone(name: string, path: string -> string)
    requires Classify(name).None?
    ensures forall k: Kind :: ReadFiles([name], path)[KeyOf(k)] == []
  {
    forall k: Kind
      ensures ReadFiles([name], path)[KeyOf(k)] == []
    {
      assert [name][1..] == [];
      assert Bucket(Classify, [name], path, k) == [] + Bucket(Classify, [], path, k);
    }
  }

  /** The classifier with the case folded, as the upload route compares. */
  function ClassifyFolded(name: string): Option<Kind> {
    Classify(Lower(name))
  }

  /** `read_files()` with the suffixes compared lower-cased. */
  function ReadFilesFolded(listing: seq<string>, path: string -> string): map<string, seq<string>> {
    ReadFilesWith(ClassifyFolded, listing, path)
  }

  /** With the case folded, the reader keeps exactly the files the upload
      route accepts. */
  lemma ClassifyFoldedAgrees(name: string)
    ensures ClassifyFolded(name).Some? <==> AllowedFile(name)
  {
    AllowedCaseInsensitive(name);
    AllowedLowerIsSuffix(name);
  }

  /** The upload route saves a file exactly when a part was sent whose
      name the case-folded reader would put in a bucket. */
  lemma UploadSavesReadable(file: Option<string>, secure: string -> string)
    ensures UploadFile(file, secure).Saved? <==> file.Some? && ClassifyFolded(file.value).Some?
  {
    if file.Some? {
      ClassifyFoldedAgrees(file.value);
    }
  }

  /** Every uploaded file of a listing lands in the bucket of its
      lower-cased extension, and only the files upload refuses are
      skipped. */
  lemma FoldedKeepsUploads(listing: seq<string>, path: string -> string, name: string)
    requires name in listing && AllowedFile(name)
    ensures ClassifyFolded(name).Some?
    ensures forall k: Kind :: ClassifyFolded(name) == Some(k) ==> path(name) in ReadFilesFolded(listing, path)[KeyOf(k)]
    ensures name !in Skipped(ClassifyFolded, listing)
  {
    ClassifyFoldedAgrees(name);
    BucketMember(ClassifyFolded, listing, path, ClassifyFolded(name).value, name);
    SkippedMember(ClassifyFolded, listing, name);
  }
}
