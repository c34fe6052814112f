/** `createChapterFromTemplate`: a chapter draft named after its number and
    a slug of its title, holding a fixed outline filled from the answers to
    five input boxes. */
module ChapterTemplate {
  import opened Wrappers
  import opened Text
  import opened Seqs

  /** The characters `[a-z0-9-]` a slug may keep. */
  predicate SlugChar(c: char) {
    'a' <= c <= 'z' || '0' <= c <= '9' || c == '-'
  }

  predicate IsSlug(s: string) {
    forall i | 0 <= i < |s| :: SlugChar(s[i])
  }

  predicate NoWhitespace(s: string) {
    forall i | 0 <= i < |s| :: !IsWhitespace(s[i])
  }

  /** `.replace(/\s+/g, '-')`: every maximal run of white space becomes a
      single `-`. */
  function DashWhitespaceRuns(s: string): (r: string)
    ensures NoWhitespace(r)
    ensures |r| <= |s|
    decreases |s|
  {
    if |s| == 0 then ""
    else if IsWhitespace(s[0]) then
      var rest := TrimStart(s);
      assert |rest| < |s|;
      "-" + DashWhitespaceRuns(rest)
    else [s[0]] + DashWhitespaceRuns(s[1..])
  }

  /** Text without white space has no run to replace. */
  lemma {:induction false} DashRunsKeepsSpaceFree(s: string)
    requires NoWhitespace(s)
    ensures DashWhitespaceRuns(s) == s
    decreases |s|
  {
    if |s| > 0 {
      DashRunsKeepsSpaceFree(s[1..]);
      assert s == [s[0]] + s[1..];
    }
  }

  /** `toSlug`: lower-case, white-space runs to `-`, then everything outside
      `[a-z0-9-]` deleted. */
  function ToSlug(text: string): (r: string)
    ensures IsSlug(r)
    ensures |r| <= |text|
  {
    Filter(DashWhitespaceRuns(ToLower(text)), SlugChar)
  }

  /** A slug is its own slug. */
  lemma SlugIdempotent(text: string)
    ensures ToSlug(ToSlug(text)) == ToSlug(text)
  {
    var s := ToSlug(text);
    assert ToLower(s) == s;
    assert NoWhitespace(s) by {
      forall i | 0 <= i < |s| ensures !IsWhitespace(s[i]) {
        assert SlugChar(s[i]);
      }
    }
    DashRunsKeepsSpaceFree(s);
    FilterKeepsAll(s, SlugChar);
  }

  /** A title with no ASCII letter, digit, white space or `-` slugs to the
      empty string, so a Japanese title such as `始まりの日` leaves only the
      number in the file name, whatever the function's own comment says. */
  lemma SlugOfForeignTitle(text: string)
    requires forall i | 0 <= i < |text| :: !SlugChar(LowerChar(text[i])) && !IsWhitespace(text[i])
    ensures ToSlug(text) == ""
  {
    var lower := ToLower(text);
    assert NoWhitespace(lower) by {
      forall i | 0 <= i < |lower| ensures !IsWhitespace(lower[i]) {
        assert lower[i] == LowerChar(text[i]);
      }
    }
    DashRunsKeepsSpaceFree(lower);
    FilterFrom(lower, SlugChar);
  }

  /** `trimStart` of white space followed by text that does not start with
      white space leaves that text. */
  lemma TrimStartOfSpace(w: string, b: string)
    requires AllWhitespace(w)
    requires |b| == 0 || !IsWhitespace(b[0])
    ensures TrimStart(w + b) == b
  {
    var s := w + b;
    var t := TrimStart(s);
    if |b| > 0 {
      assert s[|w|] == b[0];
      assert |w| >= |s| - |t|;
    }
    assert |w| <= |s| - |t|;
  }

  /** A run of white space between two space-free texts becomes one `-`. */
  lemma {:induction false} DashRunBetween(a: string, w: string, b: string)
    requires NoWhitespace(a) && NoWhitespace(b)
    requires |w| > 0 && AllWhitespace(w)
    ensures DashWhitespaceRuns(a + w + b) == a + "-" + b
    decreases |a|, 1
  {
    if |a| == 0 {
      assert a + w + b == w + b;
      TrimStartOfSpace(w, b);
      DashRunsKeepsSpaceFree(b);
    } else {
      DashRunBetweenAfterFirst(a, w, b);
    }
  }

  /** `DashRunBetween` for a non-empty `a`, whose first character is kept. */
  lemma {:induction false} DashRunBetweenAfterFirst(a: string, w: string, b: string)
    requires |a| > 0 && NoWhitespace(a) && NoWhitespace(b)
    requires |w| > 0 && AllWhitespace(w)
    ensures DashWhitespaceRuns(a + w + b) == a + "-" + b
    decreases |a|, 0
  {
    NoWhitespaceTail(a);
    DashRunBetween(a[1..], w, b);
    DashRunsCons(a[0], a[1..] + w + b, a[1..] + "-" + b);
    ConsInFront(a, w, b);
  }

  lemma NoWhitespaceTail(a: string)
    requires |a| > 0 && NoWhitespace(a)
    ensures !IsWhitespace(a[0]) && NoWhitespace(a[1..])
  {
    assert forall i | 0 <= i < |a[1..]| :: a[1..][i] == a[i + 1];
  }

  /** Putting the first character of `a` back in front. */
  lemma ConsInFront(a: string, w: string, b: string)
    requires |a| > 0
    ensures [a[0]] + (a[1..] + w + b) == a + w + b
    ensures [a[0]] + (a[1..] + "-" + b) == a + "-" + b
  {
    assert a == [a[0]] + a[1..];
  }

  /** A leading character other than white space is kept in front. */
  lemma DashRunsCons(c: char, t: string, r: string)
    requires !IsWhitespace(c) && DashWhitespaceRuns(t) == r
    ensures DashWhitespaceRuns([c] + t) == [c] + r
  {
    assert ([c] + t)[1..] == t;
  }

  /** Two slug words separated by any white space slug to the words joined
      by one `-`: `a  b` becomes `a-b`. */
  lemma SlugJoinsWords(a: string, w: string, b: string)
    requires IsSlug(a) && IsSlug(b)
    requires |w| > 0 && AllWhitespace(w)
    ensures ToSlug(a + w + b) == a + "-" + b
  {
    SlugWordsAreLower(a, w, b);
    SlugHasNoWhitespace(a);
    SlugHasNoWhitespace(b);
    DashRunBetween(a, w, b);
    SlugsJoinedByDash(a, b);
    FilterKeepsAll(a + "-" + b, SlugChar);
  }

  /** Slug words and white space are already lower case. */
  lemma SlugWordsAreLower(a: string, w: string, b: string)
    requires IsSlug(a) && IsSlug(b) && AllWhitespace(w)
    ensures ToLower(a + w + b) == a + w + b
  {
    var s := a + w + b;
    forall i | 0 <= i < |s| ensures LowerChar(s[i]) == s[i] {
      if i < |a| { assert s[i] == a[i]; }
      else if i < |a| + |w| { assert s[i] == w[i - |a|]; }
      else { assert s[i] == b[i - |a| - |w|]; }
    }
  }

  lemma SlugHasNoWhitespace(a: string)
    requires IsSlug(a)
    ensures NoWhitespace(a)
  {
    forall i | 0 <= i < |a| ensures !IsWhitespace(a[i]) { assert SlugChar(a[i]); }
  }

  /** Two slugs joined by `-` are a slug. */
  lemma SlugsJoinedByDash(a: string, b: string)
    requires IsSlug(a) && IsSlug(b)
    ensures IsSlug(a + "-" + b)
  {
    var r := a + "-" + b;
    forall i | 0 <= i < |r| ensures SlugChar(r[i]) {
      if i < |a| { assert r[i] == a[i]; }
      else if i > |a| { assert r[i] == b[i - |a| - 1]; }
    }
  }

  /** The `validateInput` test of the chapter number: `^\d+$`. */
  predicate IsDigits(s: string) {
    |s| > 0 && AllDigits(s)
  }

  /** Only the decimal digits `0`-`9`, possibly none. */
  predicate AllDigits(s: string) {
    forall i | 0 <= i < |s| :: '0' <= s[i] <= '9'
  }

  /** `parseInt(s, 10)` of a digit string, without a precision limit. */
  function DigitsValue(s: string): nat
    requires AllDigits(s)
    decreases |s|
  {
    if |s| == 0 then 0
    else DigitsValue(s[..|s| - 1]) * 10 + (s[|s| - 1] as int - '0' as int)
  }

  function DigitChar(d: nat): char
    requires d < 10
  {
    ('0' as int + d) as char
  }

  /** `n.toString()`: decimal digits with no leading zero. */
  function DecimalString(n: nat): (r: string)
    ensures IsDigits(r)
    ensures |r| > 1 ==> r[0] != '0'
    decreases n
  {
    if n < 10 then [DigitChar(n)] else DecimalString(n / 10) + [DigitChar(n % 10)]
  }

  /** Reading back the decimal string gives the number. */
  lemma {:induction false} DecimalRoundTrip(n: nat)
    ensures DigitsValue(DecimalString(n)) == n
    decreases n
  {
    if n >= 10 {
      DecimalRoundTrip(n / 10);
      var s := DecimalString(n);
      assert s[..|s| - 1] == DecimalString(n / 10);
    }
  }

  /** A leading zero does not change the value. */
  lemma {:induction false} LeadingZeroValue(s: string)
    requires AllDigits(s)
    ensures DigitsValue("0" + s) == DigitsValue(s)
    decreases |s|
  {
    if |s| > 0 {
      var t := "0" + s;
      assert t[..|t| - 1] == "0" + s[..|s| - 1];
      LeadingZeroValue(s[..|s| - 1]);
    } else {
      assert ("0" + s)[..0] == "";
    }
  }

  /** `padStart(2, '0')`. */
  function PadStart2(s: string): (r: string)
    ensures |r| == if |s| < 2 then 2 else |s|
    ensures EndsWith(r, s)
  {
    if |s| == 0 then "00" else if |s| == 1 then "0" + s else s
  }

  /** `parseInt(input, 10).toString().padStart(2, '0')`. */
  function PaddedNumber(input: string): string
    requires IsDigits(input)
  {
    PadStart2(DecimalString(DigitsValue(input)))
  }

  /** The padded number has the value typed, at least two digits, and no
      more than two unless the value needs them: `007` becomes `07`. */
  lemma PaddedNumberValue(input: string)
    requires IsDigits(input)
    ensures IsDigits(PaddedNumber(input)) && |PaddedNumber(input)| >= 2
    ensures DigitsValue(PaddedNumber(input)) == DigitsValue(input)
    ensures |PaddedNumber(input)| > 2 ==> PaddedNumber(input)[0] != '0'
  {
    var d := DecimalString(DigitsValue(input));
    DecimalRoundTrip(DigitsValue(input));
    if |d| == 1 {
      LeadingZeroValue(d);
    }
  }

  lemma PaddedSeven()
    ensures PaddedNumber("007") == "07"
  {
    assert DigitsValue("007") == 7 by {
      assert "007"[..2] == "00" && "00"[..1] == "0" && "0"[..0] == "";
    }
  }

  /** `chap_<padded>_<slug>_draft.md`: the prefix and the ending meet with
      nothing between them. */
  function ChapterFileName(input: string, title: string): (r: string)
    requires IsDigits(input)
    ensures StartsWith(r, "chap_" + PaddedNumber(input) + "_")
    ensures EndsWith(r, ToSlug(title) + "_draft.md")
    ensures |r| == |"chap_" + PaddedNumber(input) + "_"| + |ToSlug(title) + "_draft.md"|
  {
    var r := "chap_" + PaddedNumber(input) + "_" + ToSlug(title) + "_draft.md";
    assert r[..|"chap_" + PaddedNumber(input) + "_"|] == "chap_" + PaddedNumber(input) + "_";
    assert r[|r| - |ToSlug(title) + "_draft.md"|..] == ToSlug(title) + "_draft.md";
    r
  }

  const BodyPlaceholder := "[ここに本文を記述]"

  /** The heading line of a draft. */
  function Heading(number: nat, title: string): string {
    "# 第" + DecimalString(number) + "章 " + title
  }

  const Closing := "\n\n---\n\n" + BodyPlaceholder

  /** The outline between the template literal's leading line break and its
      two trailing ones. */
  function Outline(number: nat, title: string, purpose: string, characters: string, climax: string): string {
    Heading(number, title)
      + ("\n\n## この章の目的\n- " + purpose
      + "\n\n## 登場人物\n- " + characters
      + "\n\n## 見せ場・クライマックス\n- " + climax)
      + Closing
  }

  /** The content written: the template literal, trimmed. */
  function ChapterContent(number: nat, title: string, purpose: string, characters: string, climax: string): string {
    Trim("\n" + Outline(number, title, purpose, characters, climax) + "\n\n")
  }

  lemma Framing(h: string, m: string, t: string)
    ensures StartsWith(h + m + t, h) && EndsWith(h + m + t, t)
  {
    assert (h + m + t)[..|h|] == h;
    assert (h + m + t)[|h + m + t| - |t|..] == t;
  }

  /** Trimming removes exactly the literal's framing line breaks, whatever
      the answers hold: the draft opens with its heading and closes with the
      body placeholder. */
  lemma ChapterContentIsOutline(number: nat, title: string, purpose: string, characters: string, climax: string)
    ensures ChapterContent(number, title, purpose, characters, climax) == Outline(number, title, purpose, characters, climax)
    ensures StartsWith(ChapterContent(number, title, purpose, characters, climax), Heading(number, title))
    ensures EndsWith(ChapterContent(number, title, purpose, characters, climax), Closing)
  {
    var h := Heading(number, title);
    var m := "\n\n## この章の目的\n- " + purpose + "\n\n## 登場人物\n- " + characters + "\n\n## 見せ場・クライマックス\n- " + climax;
    var x := h + m + Closing;
    assert x == Outline(number, title, purpose, characters, climax);
    assert h[0] == '#';
    assert x[0] == h[0];
    assert Closing[|Closing| - 1] == ']';
    assert x[|x| - 1] == Closing[|Closing| - 1];
    assert AllWhitespace("\n") && AllWhitespace("\n\n");
    TrimFramed("\n", x, "\n\n");
    Framing(h, m, Closing);
  }

  /** What the five input boxes returned: `None` is a cancelled box. An
      answer the box's own validation refuses is never returned, so it is
      modelled as a cancellation too. */
  datatype Answers = Answers(number: Option<string>, title: Option<string>, purpose: Option<string>,
                             characters: Option<string>, climax: Option<string>)

  /** The draft `createChapterFromTemplate` writes under the chapters folder. */
  datatype Draft = Draft(path: string, content: string)

  /** `createChapterFromTemplate`: nothing is written when a box is cancelled,
      the number is not all digits or the title is empty or blank; otherwise
      one draft under `chaptersDir`. */
  function CreateChapter(chaptersDir: string, a: Answers): (r: Option<Draft>)
    ensures r.Some? <==>
              && a.number.Some? && IsDigits(a.number.value)
              && a.title.Some? && !IsBlank(a.title.value)
              && a.purpose.Some? && a.characters.Some? && a.climax.Some?
    ensures r.Some? ==>
              && r.value.path == chaptersDir + "/" + ChapterFileName(a.number.value, a.title.value)
              && StartsWith(r.value.content, Heading(DigitsValue(a.number.value), a.title.value))
              && EndsWith(r.value.content, Closing)
              && r.value.content == Outline(DigitsValue(a.number.value), a.title.value, a.purpose.value,
                                            a.characters.value, a.climax.value)
  {
    if a.number.None? || !IsDigits(a.number.value) then None
    else if a.title.None? || IsBlank(a.title.value) then None
    else if a.purpose.None? || a.characters.None? || a.climax.None? then None
    else Some(NewDraft(chaptersDir, a.number.value, a.title.value, a.purpose.value, a.characters.value, a.climax.value))
  }

  /** The draft for accepted answers: its file name and its trimmed outline. */
  function NewDraft(chaptersDir: string, number: string, title: string, purpose: string, characters: string, climax: string): (d: Draft)
    requires IsDigits(number)
    ensures d.path == chaptersDir + "/" + ChapterFileName(number, title)
    ensures StartsWith(d.content, Heading(DigitsValue(number), title))
    ensures EndsWith(d.content, Closing)
    ensures d.content == Outline(DigitsValue(number), title, purpose, characters, climax)
  {
    var n := DigitsValue(number);
    ChapterContentIsOutline(n, title, purpose, characters, climax);
    Draft(chaptersDir + "/" + ChapterFileName(number, title), ChapterContent(n, title, purpose, characters, climax))
  }
}
