/** The checks an uploaded case file passes before anything is written to
    disk or to the database: a file part must be present, its name must not
    be empty, and its extension must be "ost" in any case. */
module Upload {
  import opened Common
  import opened Text

  /** The position of the last '.' in `s`: what `s.rsplit('.', 1)` splits at. */
  function LastDot(s: string): (i: Option<nat>)
    ensures i.Some? ==> i.value < |s| && s[i.value] == '.'
    ensures i.Some? ==> forall j :: i.value < j < |s| ==> s[j] != '.'
    ensures i.None? <==> '.' !in s
    decreases |s|
  {
    if s == [] then None
    else if s[|s| - 1] == '.' then Some(|s| - 1)
    else
      var r := LastDot(s[..|s| - 1]);
      assert '.' in s ==> '.' in s[..|s| - 1] by {
        if '.' in s {
          var j :| 0 <= j < |s| && s[j] == '.';
          assert s[..|s| - 1][j] == '.';
        }
      }
      r
  }

  /** A '.' with none after it is the last one. */
  lemma {:induction false} LastDotAt(s: string, k: nat)
    requires k < |s| && s[k] == '.'
    requires forall j :: k < j < |s| ==> s[j] != '.'
    ensures LastDot(s) == Some(k)
    decreases |s|
  {
    if k < |s| - 1 {
      LastDotAt(s[..|s| - 1], k);
    }
  }

  /** `allowed_file`: the name holds a '.', and the text after the last one,
      lower-cased, is "ost". */
  predicate AllowedFile(filename: string) {
    match LastDot(filename)
    case None => false
    case Some(i) => Lower(filename[i + 1..]) == "ost"
  }

  /** A name is allowed exactly when it ends with '.' and three letters that
      lower-case to "ost": the extension can be neither longer nor shorter,
      and it cannot hold a '.'. */
  lemma AllowedFileMeaning(filename: string)
    ensures AllowedFile(filename) <==>
      (|filename| >= 4 && filename[|filename| - 4] == '.' && Lower(filename[|filename| - 3..]) == "ost")
  {
    var n := |filename|;
    if AllowedFile(filename) {
      var i := LastDot(filename).value;
      assert |Lower(filename[i + 1..])| == |filename[i + 1..]|;
    }
    if n >= 4 && filename[n - 4] == '.' && Lower(filename[n - 3..]) == "ost" {
      forall j | n - 4 < j < n ensures filename[j] != '.' {
        assert Lower(filename[n - 3..])[j - (n - 3)] == LowerChar(filename[j]);
      }
      LastDotAt(filename, n - 4);
    }
  }

  /** With no '.' in the extension, a name is allowed exactly when the
      extension lower-cases to "ost", whatever comes before the dot (which
      may hold dots of its own). */
  lemma AllowedByExtension(stem: string, extension: string)
    requires '.' !in extension
    ensures AllowedFile(stem + "." + extension) <==> Lower(extension) == "ost"
  {
    var f := stem + "." + extension;
    assert f[|stem| + 1..] == extension;
    forall j | |stem| < j < |f| ensures f[j] != '.' {
      assert f[j] == extension[j - |stem| - 1];
    }
    LastDotAt(f, |stem|);
  }

  /** A name without a '.' is refused. */
  lemma NoDotRefused(filename: string)
    requires '.' !in filename
    ensures !AllowedFile(filename)
  {}

  /** A name ending with '.' has an empty extension and is refused. */
  lemma TrailingDotRefused(stem: string)
    ensures !AllowedFile(stem + ".")
  {
    AllowedByExtension(stem, "");
  }

  /** "ost" in upper case is accepted, as are names whose last extension is
      "ost" after another one; a name whose "ost" is followed by another
      extension is refused. */
  lemma ExtensionExamples(stem: string)
    ensures AllowedFile(stem + "." + "OST")
    ensures AllowedFile(stem + ".txt" + "." + "ost")
    ensures !AllowedFile(stem + ".ost" + "." + "txt")
  {
    assert Lower("OST") == "ost";
    assert Lower("ost") == "ost";
    assert Lower("txt")[0] == 't';
    AllowedByExtension(stem, "OST");
    AllowedByExtension(stem + ".txt", "ost");
    AllowedByExtension(stem + ".ost", "txt");
  }

  /** The file part of a multipart request: absent, or present with the
      name the client gave. */
  datatype FilePart = Missing | Present(filename: string)

  /** The verdict of the checks: a 400 reply with its message, or leave to
      go on to the disk and the database. */
  datatype Verdict = Rejected(status: nat, message: string) | Proceed(filename: string)

  const NoFileMessage: string := "Aucun fichier envoyé"
  const NoSelectionMessage: string := "Aucun fichier sélectionné"
  const WrongTypeMessage: string := "Type de fichier non autorisé"

  /** The checks at the head of both `parse_file` and `replace_file`, in
      their order. */
  function CheckUpload(part: FilePart): (v: Verdict)
    ensures v.Rejected? ==> v.status == 400
    ensures v.Proceed? <==> part.Present? && part.filename != "" && AllowedFile(part.filename)
    ensures v.Proceed? ==> v.filename == part.filename
  {
    if part.Missing? then Rejected(400, NoFileMessage)
    else if part.filename == "" then Rejected(400, NoSelectionMessage)
    else if !AllowedFile(part.filename) then Rejected(400, WrongTypeMessage)
    else Proceed(part.filename)
  }

  /** The message names the first check that fails: a missing part before
      an empty name, an empty name before a wrong extension. */
  lemma RejectionOrder(part: FilePart)
    ensures CheckUpload(part) == Rejected(400, NoFileMessage) <==> part.Missing?
    ensures CheckUpload(part) == Rejected(400, NoSelectionMessage) <==> part == Present("")
    ensures CheckUpload(part) == Rejected(400, WrongTypeMessage) <==>
      (part.Present? && part.filename != "" && !AllowedFile(part.filename))
  {
    assert NoFileMessage != NoSelectionMessage && NoFileMessage != WrongTypeMessage;
    assert NoSelectionMessage != WrongTypeMessage;
  }
}
