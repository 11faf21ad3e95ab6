/** The upload filter of the web application: which file names the upload route accepts. */
module Server {

  import opened PyCore
  import opened PyStrings

  /** The extensions an upload may carry: images, videos, CAD exchange files and meshes. */
  const AllowedExtensions: set<string> := {"png", "jpg", "jpeg", "gif", "mp4", "avi", "mov", "step", "stp", "stl", "obj"}

  /** `filename.rsplit('.', 1)[1]`: the text after the last dot, when there is a dot. */
  function Extension(filename: string): (ext: Option<string>)
    ensures ext.None? <==> '.' !in filename
    ensures ext.Some? ==> '.' !in ext.value && |ext.value| < |filename|
    ensures ext.Some? ==> filename == filename[..|filename| - |ext.value| - 1] + "." + ext.value
  {
    match LastIndexOf(filename, '.')
    case None => None
    case Some(i) =>
      var ext := filename[i + 1..];
      assert forall j :: 0 <= j < |ext| ==> ext[j] == filename[i + 1 + j];
      assert filename == filename[..i] + "." + ext;
      Some(ext)
  }

  /** `allowed_file`: there is a dot, and the text after the last one, lower-cased, is an
      allowed extension. */
  function AllowedFile(filename: string): bool {
    '.' in filename && Lower(Extension(filename).value) in AllowedExtensions
  }

  /** A name is accepted exactly when it splits into a stem, a dot and a dot-free extension
      whose lower-case form is allowed. */
  lemma AllowedFileIff(filename: string)
    ensures AllowedFile(filename) <==>
      exists stem, ext :: filename == stem + "." + ext && '.' !in ext && Lower(ext) in AllowedExtensions
  {
    if AllowedFile(filename) {
      var ext := Extension(filename).value;
      var stem := filename[..|filename| - |ext| - 1];
      assert filename == stem + "." + ext;
    }
    if exists stem, ext :: filename == stem + "." + ext && '.' !in ext && Lower(ext) in AllowedExtensions {
      var stem, ext :| filename == stem + "." + ext && '.' !in ext && Lower(ext) in AllowedExtensions;
      SplitAtLastDot(stem, ext);
    }
  }

  /** The extension of `stem + "." + ext` is `ext` when `ext` has no dot. */
  lemma SplitAtLastDot(stem: string, ext: string)
    requires '.' !in ext
    ensures Extension(stem + "." + ext) == Some(ext)
  {
    var filename := stem + "." + ext;
    assert filename[|stem|] == '.';
    assert forall j :: |stem| < j < |filename| ==> filename[j] == ext[j - |stem| - 1];
    assert filename[|stem| + 1..] == ext;
  }

  /** A name without a dot is refused. */
  lemma NoDotRejected(filename: string)
    requires '.' !in filename
    ensures !AllowedFile(filename)
  {
  }

  /** A trailing dot leaves an empty extension, which is refused. */
  lemma TrailingDotRejected(stem: string)
    ensures !AllowedFile(stem + ".")
  {
    assert stem + "." == stem + "." + "";
    SplitAtLastDot(stem, "");
    assert Lower("") == "";
  }

  /** Only the last extension counts: an executable behind a mesh extension is refused. */
  lemma LastExtensionRejects()
    ensures !AllowedFile("a.stl.exe")
  {
    assert "a.stl" + "." + "exe" == "a.stl.exe";
    SplitAtLastDot("a.stl", "exe");
    LowerOfLowerCase("exe");
    ExeNotAllowed();
  }

  /** No allowed extension starts with an `e`. */
  lemma ExeNotAllowed()
    ensures "exe" !in AllowedExtensions
  {
    assert forall e :: e in AllowedExtensions ==> |e| > 0 && e[0] != 'e';
  }

  /** Only the last extension counts: a mesh behind an executable extension is accepted. */
  lemma LastExtensionAccepts()
    ensures AllowedFile("a.exe.stl")
  {
    assert "a.exe" + "." + "stl" == "a.exe.stl";
    SplitAtLastDot("a.exe", "stl");
    LowerOfLowerCase("stl");
  }

  /** Upper-case extensions are accepted. */
  lemma UpperCaseAccepted()
    ensures AllowedFile("PART.STL")
  {
    SplitAtLastDot("PART", "STL");
    assert "PART" + "." + "STL" == "PART.STL";
    assert Lower("STL") == "stl";
  }
}
