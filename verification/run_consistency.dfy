/** `runConsistencyChecksForCurrentChapter`: the consistency check of the
    file open in the active editor, run only for a chapter file. */
module RunConsistencyChecks {
  import opened Wrappers
  import opened Text

  predicate IsSeparator(c: char) {
    c == '/' || c == '\\'
  }

  /** The characters `.` in a regular expression does not match. */
  predicate IsLineTerminator(c: char) {
    c == '\n' || c == '\r' || c == '\U{2028}' || c == '\U{2029}'
  }

  const ChaptersDir := "chapters"
  const MdEnding := ".md"

  /** `[/\\]chapters[/\\].+\.md$` matches starting at `i`: a separator,
      `chapters`, a separator, then at least one character other than a line
      terminator before the `.md` that ends the path. */
  predicate ChapterMatchAt(path: string, i: nat) {
    var start := i + 1 + |ChaptersDir| + 1;
    && start + 1 + |MdEnding| <= |path|
    && IsSeparator(path[i])
    && path[i + 1..i + 1 + |ChaptersDir|] == ChaptersDir
    && IsSeparator(path[i + 1 + |ChaptersDir|])
    && EndsWith(path, MdEnding)
    && forall k | start <= k < |path| - |MdEnding| :: !IsLineTerminator(path[k])
  }

  /** The regular expression's `test`: a match anywhere. */
  predicate IsChapterPath(path: string) {
    exists i: nat | i < |path| :: ChapterMatchAt(path, i)
  }

  /** Every chapter path is a `.md` path, case-sensitively. */
  lemma ChapterPathIsMarkdown(path: string)
    requires IsChapterPath(path)
    ensures EndsWith(path, MdEnding)
  {
  }

  /** A non-empty file name without line breaks that ends in `.md`, joined
      under a `chapters` folder with either separator, is a chapter path,
      wherever the folder sits. */
  lemma ChapterFileIsChapterPath(root: string, sep: char, name: string)
    requires IsSeparator(sep)
    requires |name| > |MdEnding| && EndsWith(name, MdEnding)
    requires forall k | 0 <= k < |name| :: !IsLineTerminator(name[k])
    ensures IsChapterPath(root + [sep] + ChaptersDir + [sep] + name)
  {
    var path := root + [sep] + ChaptersDir + [sep] + name;
    var i := |root|;
    assert path[i] == sep;
    assert path[i + 1..i + 1 + |ChaptersDir|] == ChaptersDir;
    assert path[i + 1 + |ChaptersDir|] == sep;
    assert path[|path| - |MdEnding|..] == name[|name| - |MdEnding|..];
    forall k | i + 1 + |ChaptersDir| + 1 <= k < |path| - |MdEnding|
      ensures !IsLineTerminator(path[k])
    {
      assert path[k] == name[k - (i + 1 + |ChaptersDir| + 1)];
    }
    assert ChapterMatchAt(path, i);
  }

  /** A file directly under `chapters` named only `.md` has no character
      before the extension and is not a chapter. */
  lemma BareExtensionIsNotChapter(root: string)
    requires '/' !in root && '\\' !in root
    ensures !IsChapterPath(root + "/" + ChaptersDir + "/" + MdEnding)
  {
    var path := root + "/" + ChaptersDir + "/" + MdEnding;
    forall i: nat | i < |path| ensures !ChapterMatchAt(path, i) {
      if i < |root| {
        assert path[i] == root[i];
      }
    }
  }

  /** What the command did. */
  datatype RunOutcome =
    | NoEditor
    | NotAChapter(path: string)
    | Checked(path: string, failure: Option<string>)

  /** `runConsistencyChecksForCurrentChapter` with the active editor's file
      path (`None` for no editor) and the check as a parameter: the check
      runs once, on that path, only for a chapter, and its error is caught
      and kept for the message. */
  function RunForCurrentChapter(activePath: Option<string>, check: string -> Result<(), string>): (r: RunOutcome)
    ensures activePath.None? <==> r.NoEditor?
    ensures r.Checked? <==> activePath.Some? && IsChapterPath(activePath.value)
    ensures r.Checked? ==> r.path == activePath.value
    ensures r.Checked? ==> (r.failure.None? <==> check(r.path).Ok?)
    ensures r.Checked? && r.failure.Some? ==> r.failure.value == check(r.path).error
  {
    match activePath
    case None => NoEditor
    case Some(path) =>
      if !IsChapterPath(path) then NotAChapter(path)
      else match check(path)
        case Ok(_) => Checked(path, None)
        case Err(e) => Checked(path, Some(e))
  }
}
