/** The JavaScript string operations the extension relies on, restated over
    `seq<char>`: `trim`, `startsWith`/`endsWith`, `indexOf`, `split` and
    `join` with a literal separator, `replace` of the first occurrence,
    a global literal `replace`, and ASCII `toLowerCase`. */
module Text {
  import opened Wrappers
  import opened Seqs

  /** The characters JavaScript's `trim` and the regular-expression class `\s`
      treat as white space (WhiteSpace and LineTerminator of ECMA-262). */
  predicate IsWhitespace(c: char) {
    || c == ' ' || c == '\t' || c == '\n' || c == '\r' || c == '\U{0B}' || c == '\U{0C}'
    || c == '\U{A0}' || c == '\U{1680}' || ('\U{2000}' <= c <= '\U{200A}')
    || c == '\U{2028}' || c == '\U{2029}' || c == '\U{202F}' || c == '\U{205F}'
    || c == '\U{3000}' || c == '\U{FEFF}'
  }

  predicate AllWhitespace(s: string) {
    forall i | 0 <= i < |s| :: IsWhitespace(s[i])
  }

  /** JavaScript's `s.trimStart()`. */
  function TrimStart(s: string): (r: string)
    ensures |r| <= |s| && r == s[|s| - |r|..]
    ensures forall i | 0 <= i < |s| - |r| :: IsWhitespace(s[i])
    ensures |r| > 0 ==> !IsWhitespace(r[0])
  {
    if |s| > 0 && IsWhitespace(s[0]) then TrimStart(s[1..]) else s
  }

  /** JavaScript's `s.trimEnd()`. */
  function TrimEnd(s: string): (r: string)
    ensures |r| <= |s| && r == s[..|r|]
    ensures forall i | |r| <= i < |s| :: IsWhitespace(s[i])
    ensures |r| > 0 ==> !IsWhitespace(r[|r| - 1])
  {
    if |s| > 0 && IsWhitespace(s[|s| - 1]) then TrimEnd(s[..|s| - 1]) else s
  }

  /** JavaScript's `s.trim()`: the result is empty exactly when `s` is all
      white space, and otherwise starts and ends with a non-space. */
  function Trim(s: string): (r: string)
    ensures r == "" <==> AllWhitespace(s)
    ensures |r| > 0 ==> !IsWhitespace(r[0]) && !IsWhitespace(r[|r| - 1])
  {
    TrimEnd(TrimStart(s))
  }

  /** `s.trim() === ''`, the "blank" test used throughout the source. */
  predicate IsBlank(s: string) {
    Trim(s) == ""
  }

  /** Trimming a string that has only white space in front of a first
      non-space character leaves the trailing trim to do. */
  lemma TrimAfterLeadingSpace(pre: string, x: string)
    requires AllWhitespace(pre)
    requires |x| > 0 && !IsWhitespace(x[0])
    ensures Trim(pre + x) == TrimEnd(x)
  {
    var s := pre + x;
    var t := TrimStart(s);
    assert s[|pre|] == x[0];
    assert |pre| >= |s| - |t|;
    if |t| > 0 {
      assert t[0] == s[|s| - |t|];
    }
    assert |pre| <= |s| - |t|;
    assert t == x;
  }

  /** A text wrapped in one leading and one trailing line break, as a
      template literal is, trims to the text's own trailing trim. */
  lemma TrimFramedByNewlines(x: string)
    requires |x| > 0 && !IsWhitespace(x[0])
    ensures Trim("\n" + x + "\n") == TrimEnd(x)
  {
    assert "\n" + x + "\n" == "\n" + (x + "\n");
    TrimAfterLeadingSpace("\n", x + "\n");
    TrimEndDropsTrailingSpace(x, "\n");
  }

  /** Trimming twice is trimming once. */
  lemma TrimIdempotent(s: string)
    ensures Trim(Trim(s)) == Trim(s)
  {
    var r := Trim(s);
    if r != "" {
      assert "" + r + "" == r;
      TrimFramed("", r, "");
    }
  }

  /** A text that starts and ends with a non-space is what trimming leaves
      of it framed by white space. */
  lemma TrimFramed(pre: string, x: string, post: string)
    requires AllWhitespace(pre) && AllWhitespace(post)
    requires |x| > 0 && !IsWhitespace(x[0]) && !IsWhitespace(x[|x| - 1])
    ensures Trim(pre + x + post) == x
  {
    assert pre + x + post == pre + (x + post);
    TrimAfterLeadingSpace(pre, x + post);
    TrimEndDropsTrailingSpace(x, post);
  }

  /** The trim of a framed template whose text starts with `pre` and has a
      non-space right after it keeps `pre` in front. */
  lemma TrimTemplate(pre: string, c: char, rest: string)
    requires |pre| > 0 && !IsWhitespace(pre[0]) && !IsWhitespace(c)
    ensures Trim("\n" + (pre + [c] + rest) + "\n") == TrimEnd(pre + [c] + rest)
    ensures StartsWith(TrimEnd(pre + [c] + rest), pre)
  {
    var x := pre + [c] + rest;
    assert x[0] == pre[0];
    TrimFramedByNewlines(x);
    TrimEndKeepsPrefix(pre, c, rest);
    var t := TrimEnd(x);
    assert t[..|pre|] == (pre + [c])[..|pre|];
  }

  /** Trailing white space disappears under `trimEnd`. */
  lemma {:induction false} TrimEndDropsTrailingSpace(x: string, post: string)
    requires AllWhitespace(post)
    ensures TrimEnd(x + post) == TrimEnd(x)
    decreases |post|
  {
    if |post| > 0 {
      var p := post[..|post| - 1];
      assert (x + post)[..|x + post| - 1] == x + p;
      TrimEndDropsTrailingSpace(x, p);
    } else {
      assert x + post == x;
    }
  }

  /** `trimEnd` never cuts into text that ends with a non-space character. */
  lemma TrimEndKeepsPrefix(p: string, c: char, q: string)
    requires !IsWhitespace(c)
    ensures StartsWith(TrimEnd(p + [c] + q), p + [c])
  {
    var s := p + [c] + q;
    var r := TrimEnd(s);
    assert s[|p|] == c;
    assert |r| > |p|;
    assert r[..|p| + 1] == s[..|p| + 1];
  }

  predicate StartsWith(s: string, prefix: string) {
    |prefix| <= |s| && s[..|prefix|] == prefix
  }

  predicate EndsWith(s: string, suffix: string) {
    |suffix| <= |s| && s[|s| - |suffix|..] == suffix
  }

  /** `pat` occurs in `s` starting at index `i`. */
  predicate OccursAt(s: string, pat: string, i: int) {
    0 <= i && i + |pat| <= |s| && s[i..i + |pat|] == pat
  }

  /** `s.includes(pat)`. */
  predicate Contains(s: string, pat: string) {
    exists i | 0 <= i <= |s| :: OccursAt(s, pat, i)
  }

  /** `s.indexOf(pat, from)` for a non-empty `pat`, with `None` for -1. */
  function FindFrom(s: string, pat: string, from: nat): (r: Option<nat>)
    requires |pat| > 0 && from <= |s|
    ensures r.Some? ==> from <= r.value && OccursAt(s, pat, r.value)
    ensures r.Some? ==> forall j | from <= j < r.value :: !OccursAt(s, pat, j)
    ensures r.None? ==> forall j | from <= j <= |s| :: !OccursAt(s, pat, j)
    decreases |s| - from
  {
    if from + |pat| > |s| then None
    else if s[from..from + |pat|] == pat then Some(from)
    else FindFrom(s, pat, from + 1)
  }

  /** `s.indexOf(pat)`: the first occurrence, or `None` when there is none. */
  function FindFirst(s: string, pat: string): (r: Option<nat>)
    requires |pat| > 0
    ensures r.None? <==> !Contains(s, pat)
    ensures r.Some? ==> OccursAt(s, pat, r.value)
    ensures r.Some? ==> forall j | 0 <= j < r.value :: !OccursAt(s, pat, j)
  {
    FindFrom(s, pat, 0)
  }

  /** `parts.join(sep)`. */
  function Join(parts: seq<string>, sep: string): string
    decreases |parts|
  {
    if |parts| == 0 then ""
    else if |parts| == 1 then parts[0]
    else parts[0] + sep + Join(parts[1..], sep)
  }

  /** `s.split(sep)` for a non-empty literal separator: the pieces between
      successive left-to-right, non-overlapping occurrences of `sep`. There
      is always at least one piece, no piece contains `sep`, and joining the
      pieces back with `sep` gives `s` again. */
  function Split(s: string, sep: string): (r: seq<string>)
    requires |sep| > 0
    ensures |r| >= 1
    ensures Join(r, sep) == s
    ensures forall k | 0 <= k < |r| :: !Contains(r[k], sep)
    ensures CutAtFirst(r, sep)
    decreases |s|
  {
    match FindFirst(s, sep)
    case None => [s]
    case Some(i) =>
      var head := s[..i];
      var rest := Split(s[i + |sep|..], sep);
      FirstCut(s, sep, i);
      [head] + rest
  }

  /** What cutting at the leftmost occurrence `i` gives: a head without the
      separator, cut where the separator first occurs, and the rest. */
  lemma FirstCut(s: string, sep: string, i: nat)
    requires |sep| > 0 && OccursAt(s, sep, i)
    requires forall j | 0 <= j < i :: !OccursAt(s, sep, j)
    ensures !Contains(s[..i], sep)
    ensures s == s[..i] + sep + s[i + |sep|..]
    ensures FindFirst(s[..i] + sep, sep) == Some(i)
  {
    var head := s[..i];
    forall j | 0 <= j <= |head| ensures !OccursAt(head, sep, j) {
      if OccursAt(head, sep, j) {
        assert s[j..j + |sep|] == head[j..j + |sep|];
        assert OccursAt(s, sep, j);
      }
    }
    assert s == head + sep + s[i + |sep|..];
    FirstCutIsLeftmost(s, sep, i);
  }

  /** Each piece but the last ends where the separator first occurs in
      that piece followed by the separator: no occurrence overlapping the
      cut begins earlier, so the text is always cut at its leftmost
      occurrence. */
  predicate CutAtFirst(pieces: seq<string>, sep: string)
    requires |sep| > 0
  {
    forall k {:trigger CutAt(pieces[k], sep)} | 0 <= k < |pieces| - 1 :: CutAt(pieces[k], sep)
  }

  /** The separator occurs first right after `piece`. */
  predicate CutAt(piece: string, sep: string)
    requires |sep| > 0
  {
    FindFirst(piece + sep, sep) == Some(|piece|)
  }

  lemma FirstCutIsLeftmost(s: string, sep: string, i: nat)
    requires |sep| > 0 && OccursAt(s, sep, i)
    requires forall j | 0 <= j < i :: !OccursAt(s, sep, j)
    ensures FindFirst(s[..i] + sep, sep) == Some(i)
  {
    var x := s[..i] + sep;
    assert x == s[..i + |sep|];
    assert OccursAt(x, sep, i);
    var f := FindFirst(x, sep);
    assert f.Some?;
    if f.value < i {
      assert x[f.value..f.value + |sep|] == s[f.value..f.value + |sep|];
      assert OccursAt(s, sep, f.value);
    }
  }

  /** Joining with `sep` after appending one more part adds `sep` and the part. */
  lemma {:induction false} JoinSnoc(parts: seq<string>, x: string, sep: string)
    requires |parts| > 0
    ensures Join(parts + [x], sep) == Join(parts, sep) + sep + x
    decreases |parts|
  {
    if |parts| == 1 {
      assert parts + [x] == [parts[0], x];
    } else {
      assert (parts + [x])[1..] == parts[1..] + [x];
      JoinSnoc(parts[1..], x, sep);
    }
  }

  /** Joining two non-empty lists of parts puts one separator between them. */
  lemma {:induction false} JoinAppend(a: seq<string>, b: seq<string>, sep: string)
    requires |a| > 0 && |b| > 0
    ensures Join(a + b, sep) == Join(a, sep) + sep + Join(b, sep)
    decreases |a|
  {
    if |a| == 1 {
      assert (a + b)[1..] == b;
    } else {
      assert (a + b)[1..] == a[1..] + b;
      JoinAppend(a[1..], b, sep);
    }
  }

  /** Splitting on a one-character separator undoes a join of pieces that do
      not contain it. */
  lemma {:induction false} SplitJoin(parts: seq<string>, sep: string)
    requires |sep| == 1 && |parts| >= 1
    requires forall k | 0 <= k < |parts| :: !Contains(parts[k], sep)
    ensures Split(Join(parts, sep), sep) == parts
    decreases |parts|
  {
    var s := Join(parts, sep);
    if |parts| == 1 {
      assert FindFirst(s, sep).None?;
    } else {
      var p := parts[0];
      assert s == p + sep + Join(parts[1..], sep);
      assert OccursAt(s, sep, |p|);
      forall j | 0 <= j < |p| ensures !OccursAt(s, sep, j) {
        if OccursAt(s, sep, j) {
          assert p[j..j + 1] == s[j..j + 1];
          assert OccursAt(p, sep, j);
        }
      }
      assert FindFirst(s, sep) == Some(|p|);
      assert s[|p| + 1..] == Join(parts[1..], sep);
      SplitJoin(parts[1..], sep);
    }
  }

  /** Splitting `x + t` reuses every complete piece of `x` and re-splits only
      the last, unterminated piece together with `t`. */
  lemma {:induction false} SplitAppend(x: string, t: string, sep: string)
    requires |sep| > 0
    ensures var p := Split(x, sep);
            Split(x + t, sep) == p[..|p| - 1] + Split(p[|p| - 1] + t, sep)
    decreases |x|, 1
  {
    match FindFirst(x, sep)
    case None =>
      assert Split(x, sep) == [x];
    case Some(i) =>
      SplitAppendAfter(x, t, sep, i);
  }

  /** `SplitAppend` when `x` holds the separator, first at `i`: the first
      piece is shared and the rest is split appended. */
  lemma {:induction false} SplitAppendAfter(x: string, t: string, sep: string, i: nat)
    requires |sep| > 0 && FindFirst(x, sep) == Some(i)
    ensures var p := Split(x, sep);
            Split(x + t, sep) == p[..|p| - 1] + Split(p[|p| - 1] + t, sep)
    decreases |x|, 0
  {
    SplitAppendFirstPiece(x, t, sep, i);
    var rest := x[i + |sep|..];
    var p := Split(x, sep);
    var q := Split(rest, sep);
    SplitAppend(rest, t, sep);
    LastOfCons(x[..i], q, p);
    SameLastPiece(p[|p| - 1], q[|q| - 1], t, sep);
    Assemble(Split(x + t, sep), x[..i], Split(rest + t, sep), p, q, Split(q[|q| - 1] + t, sep), Split(p[|p| - 1] + t, sep));
  }

  /** With an occurrence of `sep` in `x`, the first piece of `x` is also the
      first piece of `x + t`. */
  lemma SplitAppendFirstPiece(x: string, t: string, sep: string, i: nat)
    requires |sep| > 0 && FindFirst(x, sep) == Some(i)
    ensures i + |sep| <= |x|
    ensures Split(x, sep) == [x[..i]] + Split(x[i + |sep|..], sep)
    ensures Split(x + t, sep) == [x[..i]] + Split(x[i + |sep|..] + t, sep)
  {
    SplitUnfold(x, sep, i);
    FirstOccurrenceKept(x, t, sep, i);
    SlicesOfAppend(x, t, i, i + |sep|);
    SplitUnfold(x + t, sep, i);
  }

  /** Slicing a text extended at its end, at points inside the text. */
  lemma SlicesOfAppend(x: string, t: string, i: nat, j: nat)
    requires i <= j <= |x|
    ensures (x + t)[..i] == x[..i] && (x + t)[j..] == x[j..] + t
  {
  }

  /** The last element of `[a] + q` is the last of a non-empty `q`. */
  lemma LastOfCons(a: string, q: seq<string>, p: seq<string>)
    requires |q| > 0 && p == [a] + q
    ensures |p| > 0 && p[|p| - 1] == q[|q| - 1]
  {
  }

  /** Equal last pieces re-split alike. */
  lemma SameLastPiece(l: string, m: string, t: string, sep: string)
    requires |sep| > 0 && l == m
    ensures Split(l + t, sep) == Split(m + t, sep)
  {
  }

  /** The pieces in front of a first piece `a`: dropping the last piece of
      `[a] + q` drops the last of `q`. */
  lemma Assemble(whole: seq<string>, a: string, r: seq<string>, p: seq<string>, q: seq<string>, w: seq<string>, wp: seq<string>)
    requires |q| > 0 && p == [a] + q && r == q[..|q| - 1] + w && whole == [a] + r && wp == w
    ensures |p| > 0 && whole == p[..|p| - 1] + wp
  {
    assert p[..|p| - 1] == [a] + q[..|q| - 1];
  }

  lemma SplitUnfold(s: string, sep: string, i: nat)
    requires |sep| > 0 && FindFirst(s, sep) == Some(i)
    ensures i + |sep| <= |s|
    ensures Split(s, sep) == [s[..i]] + Split(s[i + |sep|..], sep)
  {
  }

  /** The first occurrence of `sep` in `x` stays the first one in `x + t`. */
  lemma FirstOccurrenceKept(x: string, t: string, sep: string, i: nat)
    requires |sep| > 0 && FindFirst(x, sep) == Some(i)
    ensures FindFirst(x + t, sep) == Some(i)
  {
    var s := x + t;
    assert OccursAt(s, sep, i) by {
      assert s[i..i + |sep|] == x[i..i + |sep|];
    }
    forall j | 0 <= j < i ensures !OccursAt(s, sep, j) {
      assert s[j..j + |sep|] == x[j..j + |sep|];
      assert !OccursAt(x, sep, j);
    }
  }

  /** `s.replace(pat, rep)` with a literal `pat`: only the first occurrence is
      replaced (replacement-pattern `$` expansion is not modelled). */
  function ReplaceFirst(s: string, pat: string, rep: string): (r: string)
    requires |pat| > 0
    ensures !Contains(s, pat) ==> r == s
    ensures forall a, b {:trigger NoEarlierOccurrence(a, pat, b)} | s == a + pat + b && NoEarlierOccurrence(a, pat, b) :: r == a + rep + b
  {
    match FindFirst(s, pat)
    case None =>
      assert forall a, b | s == a + pat + b :: OccursAt(s, pat, |a|) by {
        forall a, b | s == a + pat + b ensures OccursAt(s, pat, |a|) {
          assert s[|a|..|a| + |pat|] == pat;
        }
      }
      s
    case Some(i) =>
      assert forall a, b | s == a + pat + b && NoEarlierOccurrence(a, pat, b) :: s[..i] + rep + s[i + |pat|..] == a + rep + b by {
        forall a, b | s == a + pat + b && NoEarlierOccurrence(a, pat, b) ensures s[..i] + rep + s[i + |pat|..] == a + rep + b {
          FirstOccurrenceSplits(a, pat, b, i);
        }
      }
      s[..i] + rep + s[i + |pat|..]
  }

  /** The first occurrence of `pat` in `a + pat + b`, when none starts in
      `a`, is the one after `a`. */
  lemma FirstOccurrenceSplits(a: string, pat: string, b: string, i: nat)
    requires |pat| > 0 && NoEarlierOccurrence(a, pat, b)
    requires OccursAt(a + pat + b, pat, i) && forall j | 0 <= j < i :: !OccursAt(a + pat + b, pat, j)
    ensures i == |a| && (a + pat + b)[..i] == a && (a + pat + b)[i + |pat|..] == b
  {
    var s := a + pat + b;
    assert OccursAt(s, pat, |a|) by {
      assert s[|a|..|a| + |pat|] == pat;
    }
    assert s[..|a|] == a;
    assert s[|a| + |pat|..] == b;
  }

  /** In `a + pat + b`, no occurrence of `pat` starts inside `a`: the
      copy of `pat` after `a` is the first one. */
  predicate NoEarlierOccurrence(a: string, pat: string, b: string) {
    forall j | 0 <= j < |a| :: !OccursAt(a + pat + b, pat, j)
  }

  /** A text whose first occurrence of the placeholder follows `a` is
      filled at that spot; whatever follows, further copies of the
      placeholder included, is kept verbatim. */
  lemma ReplaceFirstAt(a: string, pat: string, b: string, rep: string)
    requires |pat| > 0 && NoEarlierOccurrence(a, pat, b)
    ensures ReplaceFirst(a + pat + b, pat, rep) == a + rep + b
  {
  }

  /** Two placeholders filled one after the other, each at its first
      occurrence: when both first occurrences are the ones after `a` and
      after `b`, the result is the text with both values in their places. */
  lemma ReplaceFirstTwice(a: string, p: string, b: string, q: string, c: string, x: string, y: string)
    requires |p| > 0 && |q| > 0
    requires NoEarlierOccurrence(a, p, b + q + c)
    requires NoEarlierOccurrence(a + x + b, q, c)
    ensures ReplaceFirst(ReplaceFirst(a + p + b + q + c, p, x), q, y) == a + x + b + y + c
  {
    assert a + p + b + q + c == a + p + (b + q + c);
    ReplaceFirstAt(a, p, b + q + c, x);
    assert a + x + (b + q + c) == (a + x + b) + q + c;
    ReplaceFirstAt(a + x + b, q, c, y);
  }

  /** `s.replace(/pat/g, rep)` for a pattern without regular-expression
      metacharacters: every non-overlapping occurrence, left to right. */
  function ReplaceAll(s: string, pat: string, rep: string): (r: string)
    requires |pat| > 0
    ensures !Contains(s, pat) ==> r == s
  {
    Join(Split(s, pat), rep)
  }

  /** Replacing a pattern by itself changes nothing. */
  lemma ReplaceAllBySelf(s: string, pat: string)
    requires |pat| > 0
    ensures ReplaceAll(s, pat, pat) == s
  {
  }

  /** The result of a global replace never contains the pattern when the
      replacement text cannot form it, whatever the input held. */
  lemma {:induction false} ReplaceAllRemovesSingleChar(s: string, pat: string, rep: string)
    requires |pat| == 1 && pat[0] !in rep
    ensures !Contains(ReplaceAll(s, pat, rep), pat)
  {
    var parts := Split(s, pat);
    assert pat == [pat[0]];
    NoCharInJoin(parts, rep, pat[0]);
    var u := Join(parts, rep);
    forall j | 0 <= j <= |u| ensures !OccursAt(u, pat, j) {
      if j < |u| {
        assert u[j] != pat[0];
        assert u[j..j + 1][0] == u[j];
      }
    }
  }

  /** A text without the first character of `pat` holds no occurrence of it. */
  lemma NoLeadNoOccurrence(s: string, pat: string)
    requires |pat| > 0 && pat[0] !in s
    ensures !Contains(s, pat)
  {
    forall i | 0 <= i <= |s| ensures !OccursAt(s, pat, i) {
      if i < |s| {
        assert s[i] != pat[0];
      }
    }
  }

  /** Splitting undoes a join when no part holds the separator's first
      character, whatever the separator's length. */
  lemma {:induction false} SplitJoinGuarded(parts: seq<string>, sep: string)
    requires |sep| > 0 && |parts| >= 1
    requires forall k | 0 <= k < |parts| :: sep[0] !in parts[k]
    ensures Split(Join(parts, sep), sep) == parts
    decreases |parts|
  {
    var s := Join(parts, sep);
    if |parts| == 1 {
      NoLeadNoOccurrence(s, sep);
    } else {
      var p := parts[0];
      var rest := Join(parts[1..], sep);
      assert s == p + sep + rest;
      assert OccursAt(s, sep, |p|) by {
        assert s[|p|..|p| + |sep|] == sep;
      }
      forall j | 0 <= j < |p| ensures !OccursAt(s, sep, j) {
        assert s[j] == p[j];
      }
      assert FindFirst(s, sep) == Some(|p|);
      assert s[|p| + |sep|..] == rest;
      SplitJoinGuarded(parts[1..], sep);
    }
  }

  /** A global replace reaches every occurrence: a text made of parts
      separated by the pattern becomes the same parts separated by the
      replacement. */
  lemma ReplaceAllJoin(parts: seq<string>, pat: string, rep: string)
    requires |pat| > 0 && |parts| >= 1
    requires forall k | 0 <= k < |parts| :: pat[0] !in parts[k]
    ensures ReplaceAll(Join(parts, pat), pat, rep) == Join(parts, rep)
  {
    SplitJoinGuarded(parts, pat);
  }

  /** `t.replace(/p1/g, v1).replace(/p2/g, v2)`: two placeholders filled
      globally, one after the other. */
  function ReplaceBoth(t: string, p1: string, v1: string, p2: string, v2: string): string
    requires |p1| > 0 && |p2| > 0
  {
    ReplaceAll(ReplaceAll(t, p1, v1), p2, v2)
  }

  /** Every copy of the first placeholder receives its value, and a value
      that cannot start the second placeholder is left alone by the second
      replace. */
  lemma FirstPlaceholderEverywhere(parts: seq<string>, p1: string, v1: string, p2: string, v2: string)
    requires |p1| > 0 && |p2| > 0 && |parts| >= 1 && p1[0] == p2[0]
    requires forall k | 0 <= k < |parts| :: p1[0] !in parts[k]
    requires p1[0] !in v1
    ensures ReplaceBoth(Join(parts, p1), p1, v1, p2, v2) == Join(parts, v1)
  {
    ReplaceAllJoin(parts, p1, v1);
    forall k | 0 <= k < |parts| ensures !Contains(parts[k], [p2[0]]) {
      NoCharNoOccurrence(parts[k], p2[0]);
    }
    NoCharInJoin(parts, v1, p2[0]);
    NoLeadNoOccurrence(Join(parts, v1), p2);
  }

  /** Every copy of the second placeholder receives its value when the
      template holds no copy of the first. */
  lemma SecondPlaceholderEverywhere(parts: seq<string>, p1: string, v1: string, p2: string, v2: string)
    requires |p1| > 0 && |p2| > 0 && |parts| >= 1
    requires forall k | 0 <= k < |parts| :: p2[0] !in parts[k]
    requires !Contains(Join(parts, p2), p1)
    ensures ReplaceBoth(Join(parts, p2), p1, v1, p2, v2) == Join(parts, v2)
  {
    ReplaceAllJoin(parts, p2, v2);
  }

  lemma {:induction false} NoCharInJoin(parts: seq<string>, sep: string, c: char)
    requires c !in sep
    requires forall k | 0 <= k < |parts| :: !Contains(parts[k], [c])
    ensures c !in Join(parts, sep)
    decreases |parts|
  {
    if |parts| > 0 {
      assert c !in parts[0] by {
        if c in parts[0] {
          var i :| 0 <= i < |parts[0]| && parts[0][i] == c;
          assert OccursAt(parts[0], [c], i);
        }
      }
      if |parts| > 1 {
        NoCharInJoin(parts[1..], sep, c);
      }
    }
  }

  /** Every character of a part is a character of the joined text. */
  lemma {:induction false} JoinKeepsChars(parts: seq<string>, sep: string, k: nat, c: char)
    requires k < |parts| && c in parts[k]
    ensures c in Join(parts, sep)
    decreases k
  {
    if |parts| > 1 {
      if k == 0 {
        assert Join(parts, sep) == parts[0] + (sep + Join(parts[1..], sep));
      } else {
        JoinKeepsChars(parts[1..], sep, k - 1, c);
      }
    }
  }

  /** A character missing from a text is missing from all its split pieces. */
  lemma SplitKeepsChars(s: string, sep: string, c: char)
    requires |sep| > 0 && c !in s
    ensures forall k | 0 <= k < |Split(s, sep)| :: c !in Split(s, sep)[k]
  {
    var parts := Split(s, sep);
    forall k | 0 <= k < |parts| ensures c !in parts[k] {
      if c in parts[k] {
        JoinKeepsChars(parts, sep, k, c);
      }
    }
  }

  /** `s.split(/\r?\n/)`: the pieces between line feeds, each losing one
      carriage return that stood right before its line feed. */
  function SplitLines(s: string): (r: seq<string>)
    ensures |r| >= 1
    ensures forall k | 0 <= k < |r| :: '\n' !in r[k]
  {
    var pieces := Split(s, "\n");
    var r := seq(|pieces|, k requires 0 <= k < |pieces| =>
      if k < |pieces| - 1 then DropCarriageReturn(pieces[k]) else pieces[k]);
    assert forall k | 0 <= k < |r| :: '\n' !in r[k] by {
      forall k | 0 <= k < |r| ensures '\n' !in r[k] {
        NoLineFeedIn(pieces[k]);
      }
    }
    r
  }

  predicate NotBlank(line: string) {
    !IsBlank(line)
  }

  /** `text.split(/\r?\n/).filter(line => line.trim() !== '')`: the lines
      that are not blank, in order. */
  function NonBlankLines(text: string): (r: seq<string>)
    ensures forall k | 0 <= k < |r| :: NotBlank(r[k]) && '\n' !in r[k]
    ensures forall k | 0 <= k < |SplitLines(text)| :: NotBlank(SplitLines(text)[k]) ==> SplitLines(text)[k] in r
  {
    FilterFrom(SplitLines(text), NotBlank);
    Filter(SplitLines(text), NotBlank)
  }

  /** One carriage return removed from the end of a line, if it has one. */
  function DropCarriageReturn(line: string): (r: string)
    ensures r == line || r + "\r" == line
  {
    if |line| > 0 && line[|line| - 1] == '\r' then line[..|line| - 1] else line
  }

  lemma NoLineFeedIn(line: string)
    requires !Contains(line, "\n")
    ensures '\n' !in line
  {
    if '\n' in line {
      var i :| 0 <= i < |line| && line[i] == '\n';
      assert OccursAt(line, "\n", i);
    }
  }

  /** A string without the character `c` has no occurrence of `[c]`. */
  lemma NoCharNoOccurrence(s: string, c: char)
    requires c !in s
    ensures !Contains(s, [c])
  {
    forall i | 0 <= i < |s| ensures !OccursAt(s, [c], i) {
      assert s[i..i + 1] == [s[i]];
    }
  }

  /** ASCII lower-casing of one character. */
  function LowerChar(c: char): char {
    if 'A' <= c <= 'Z' then (c as int + 32) as char else c
  }

  /** `s.toLowerCase()` restricted to ASCII letters. */
  function ToLower(s: string): (r: string)
    ensures |r| == |s|
    ensures forall i | 0 <= i < |s| :: r[i] == LowerChar(s[i])
  {
    seq(|s|, i requires 0 <= i < |s| => LowerChar(s[i]))
  }

  /** `new RegExp(pat, 'i').test(s)` for a pattern without metacharacters. */
  predicate ContainsIgnoringCase(s: string, pat: string) {
    Contains(ToLower(s), ToLower(pat))
  }
}
