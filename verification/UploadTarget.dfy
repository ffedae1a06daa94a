// uploadTarget of upload.go: which remote directory the archive is unpacked in, and
// what its root is called.
module UploadTarget {
  import opened Strings
  import opened Paths

  datatype TargetFault = Required | NullByte

  datatype Target = Target(directory: string, archiveName: string)

  /** strings.LastIndexByte(p, '/'). */
  function LastSlash(p: string): (i: int)
    ensures -1 <= i < |p|
    ensures i >= 0 ==> p[i] == '/'
    ensures forall j :: i < j < |p| ==> p[j] != '/'
  {
    if p == "" then -1 else if p[|p| - 1] == '/' then |p| - 1 else LastSlash(p[..|p| - 1])
  }

  /** The part before the last slash, the root standing for an empty one. */
  function ParentBefore(destination: string, slash: nat): string
    requires slash < |destination|
  {
    if slash == 0 then "/" else destination[..slash]
  }

  /** A last component that is split off: one that follows a parent other than the root. */
  predicate SplitsOff(destination: string) {
    var slash := LastSlash(destination);
    slash >= 0 && ParentBefore(destination, slash) != "/"
  }

  /** `fileLike`: the source is a regular file or a link. */
  function TargetOf(source: string, destination: string, fileLike: bool): Result<Target, TargetFault> {
    var base := Base(Clean(source));
    var into := Target(destination, if base == "." || base == "/" then "." else base);
    if destination == "" then Err(Required)
    else if '\0' in destination then Err(NullByte)
    else if fileLike && !HasSuffix(destination, "/") then
      var slash := LastSlash(destination);
      if slash >= 0 then
        var parent := ParentBefore(destination, slash);
        if parent != "/" then Ok(Target(parent, destination[slash + 1..])) else Ok(into)
      else Ok(Target(".", destination))
    else Ok(into)
  }

  lemma {:induction false} BaseHasNoSlash(p: string)
    ensures Base(p) != "" && ('/' in Base(p) ==> Base(p) == "/")
  {
    if p != "" {
      var trimmed := TrimRightSlashes(p);
      if trimmed != "" {
        var last := AfterLastSlash(trimmed);
        assert last != "" by {
          assert trimmed[|trimmed| - 1] != '/';
        }
      }
    }
  }

  lemma AroundLastSlash(destination: string)
    ensures '/' in destination <==> LastSlash(destination) >= 0
    ensures LastSlash(destination) >= 0 && !HasSuffix(destination, "/") ==>
      var slash := LastSlash(destination);
      && destination[slash + 1..] != "" && '/' !in destination[slash + 1..]
      && destination[..slash] + "/" + destination[slash + 1..] == destination
  {
    hide LastSlash;
    var slash := LastSlash(destination);
    if slash >= 0 && !HasSuffix(destination, "/") {
      assert destination[|destination| - 1..] == [destination[|destination| - 1]];
      assert destination == destination[..slash] + [destination[slash]] + destination[slash + 1..];
    }
  }

  /** The archive root is always one name, so it is unpacked directly in the directory.
      A file whose destination has a last component after a parent other than the root
      lands exactly at that destination, one without a slash in the working directory;
      everything else, "/x" and "//x" included, lands in the destination taken as a
      directory, under the source's own name. */
  lemma UploadLandsThere(source: string, destination: string, fileLike: bool)
    ensures TargetOf(source, destination, fileLike).Err? <==> destination == "" || '\0' in destination
    ensures TargetOf(source, destination, fileLike).Ok? ==>
      var t := TargetOf(source, destination, fileLike).value;
      var toFile := fileLike && !HasSuffix(destination, "/");
      && t.archiveName != "" && '/' !in t.archiveName && t.directory != ""
      && (toFile && SplitsOff(destination) ==> t.directory + "/" + t.archiveName == destination)
      && (toFile && '/' !in destination ==> t == Target(".", destination))
      && (!toFile || ('/' in destination && !SplitsOff(destination)) ==>
            && t.directory == destination
            && t.archiveName == if Base(Clean(source)) == "/" then "." else Base(Clean(source)))
  {
    hide Clean, Base, LastSlash, HasSuffix;
    BaseHasNoSlash(Clean(source));
    AroundLastSlash(destination);
  }

  /** A file sent to "//x" is treated as a directory would be: its parent is the root
      once more. A file sent to "a/.." is called "..": the name is not looked at. */
  lemma OddDestinations(source: string)
    ensures TargetOf(source, "//x", true) == TargetOf(source, "//x", false)
    ensures TargetOf(source, "a/..", true) == Ok(Target("a", ".."))
  {
    hide Clean, Base;
    assert "a/.."[3..] == ".";
    assert LastSlash("//x") == 1 && "//x"[..1] == "/";
    assert LastSlash("a/..") == 1 && "a/.."[..1] == "a" && "a/.."[2..] == "..";
  }
}
