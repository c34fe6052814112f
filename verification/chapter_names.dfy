/** The names the chapter pipelines derive from a chapter file name: the
    summary (`_sum`) and the consistency report (`_consistency`) of
    `chap_01_draft.md` are meant to be `chap_01_sum.md` and
    `chap_01_consistency.md`. */
module ChapterNames {
  import opened Text
  import opened Workspace
  import ChapterTemplate

  const DraftEnding := "_draft.md"
  const MdEnding := ".md"

  /** `/_draft(\.md)$/i` matches: the name ends with `_draft.md` in any
      mix of ASCII case. */
  predicate IsDraftName(name: string) {
    |name| >= |DraftEnding| && ToLower(name[|name| - |DraftEnding|..]) == DraftEnding
  }

  /** `.replace(/_draft(\.md)$/i, suffix + '$1')`: `_draft` becomes the
      suffix, the extension keeps its case. */
  function ReplaceDraft(name: string, suffix: string): (r: string)
    ensures !IsDraftName(name) ==> r == name
    ensures IsDraftName(name) ==> r == name[..|name| - |DraftEnding|] + suffix + name[|name| - |MdEnding|..]
  {
    if IsDraftName(name) then name[..|name| - |DraftEnding|] + suffix + name[|name| - |MdEnding|..] else name
  }

  /** `.replace(/\.md$/, suffix + '.md')`: case-sensitive. */
  function ReplaceMd(name: string, suffix: string): (r: string)
    ensures !EndsWith(name, MdEnding) ==> r == name
    ensures EndsWith(name, MdEnding) ==> r == name[..|name| - |MdEnding|] + suffix + MdEnding
  {
    if EndsWith(name, MdEnding) then name[..|name| - |MdEnding|] + suffix + MdEnding else name
  }

  /** The derivation as the pipelines write it: both replacements, one
      after the other. */
  function DerivedNameAsWritten(name: string, suffix: string): string {
    ReplaceMd(ReplaceDraft(name, suffix), suffix)
  }

  /** A draft's derived name carries the suffix twice: `chap_01_draft.md`
      gives `chap_01_sum_sum.md`, not the `chap_01_sum.md` the comment at
      the call promises. */
  lemma DraftSuffixDoubled(stem: string, suffix: string)
    ensures DerivedNameAsWritten(stem + DraftEnding, suffix) == stem + suffix + suffix + MdEnding
  {
    var name := stem + DraftEnding;
    assert name[|name| - |DraftEnding|..] == DraftEnding;
    assert ToLower(DraftEnding) == DraftEnding;
    assert name[..|name| - |DraftEnding|] == stem;
    assert name[|name| - |MdEnding|..] == MdEnding;
    var once := stem + suffix + MdEnding;
    assert once[|once| - |MdEnding|..] == MdEnding;
    assert once[..|once| - |MdEnding|] == stem + suffix;
  }

  lemma DraftSummaryCounterexample()
    ensures DerivedNameAsWritten("chap_01_draft.md", "_sum") == "chap_01_sum_sum.md"
  {
    var stem := "chap_01";
    assert "chap_01_draft.md" == stem + DraftEnding;
    DraftSuffixDoubled(stem, "_sum");
  }

  /** The derivation the comment describes: `_draft.md` (any case) turns
      into the suffix; any other `.md` name gets the suffix before `.md`. */
  function DerivedName(name: string, suffix: string): (r: string)
    ensures IsDraftName(name) ==> r == ReplaceDraft(name, suffix)
    ensures !IsDraftName(name) ==> r == ReplaceMd(name, suffix)
  {
    if IsDraftName(name) then ReplaceDraft(name, suffix) else ReplaceMd(name, suffix)
  }

  /** A draft in any folder has its own name, `_draft.md` included, as its
      base name. */
  lemma DraftBasename(dir: string, stem: string)
    requires '/' !in stem
    ensures Basename(dir + "/" + stem + DraftEnding) == stem + DraftEnding
  {
    DraftNameHasNoSlash(stem);
    BasenameOfJoin(dir, stem + DraftEnding);
    JoinPathOfParts(dir, stem, DraftEnding);
  }

  lemma DraftNameHasNoSlash(stem: string)
    requires '/' !in stem
    ensures '/' !in stem + DraftEnding
  {
    assert forall i | 0 <= i < |DraftEnding| :: DraftEnding[i] != '/';
  }

  /** The corrected derivation replaces `_draft` by the suffix exactly once,
      and agrees with the written one on every name that is not a draft. */
  lemma DerivedNameOfDraft(stem: string, suffix: string)
    ensures DerivedName(stem + DraftEnding, suffix) == stem + suffix + MdEnding
  {
    var name := stem + DraftEnding;
    assert name[|name| - |DraftEnding|..] == DraftEnding;
    assert ToLower(DraftEnding) == DraftEnding;
    assert name[..|name| - |DraftEnding|] == stem;
    assert name[|name| - |MdEnding|..] == MdEnding;
  }

  lemma DerivedNameElsewhere(name: string, suffix: string)
    requires !IsDraftName(name)
    ensures DerivedName(name, suffix) == DerivedNameAsWritten(name, suffix)
    ensures EndsWith(name, MdEnding) ==> DerivedName(name, suffix) == name[..|name| - |MdEnding|] + suffix + MdEnding
    ensures !EndsWith(name, MdEnding) ==> DerivedName(name, suffix) == name
  {
  }

  /** Under the corrected derivation, the draft `createChapterFromTemplate`
      names keeps its chapter number and slug: `chap_NN_<slug>_sum.md`. */
  lemma SummaryOfNewDraft(input: string, title: string)
    requires ChapterTemplate.IsDigits(input)
    ensures DerivedName(ChapterTemplate.ChapterFileName(input, title), "_sum") ==
              "chap_" + ChapterTemplate.PaddedNumber(input) + "_" + ChapterTemplate.ToSlug(title) + "_sum.md"
  {
    var stem := "chap_" + ChapterTemplate.PaddedNumber(input) + "_" + ChapterTemplate.ToSlug(title);
    assert ChapterTemplate.ChapterFileName(input, title) == stem + DraftEnding;
    DerivedNameOfDraft(stem, "_sum");
  }
}
