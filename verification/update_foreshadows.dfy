/** `updateForeshadows` and its `applyTsvPatch`: the foreshadowing list
    (a TSV file keyed by its `id` column) merged with the patch rows a model
    proposes after a chapter is written. */
module UpdateForeshadows {
  import opened Wrappers
  import opened Text
  import opened Seqs
  import opened Workspace
  import opened Types
  import ContextExtractor

  const MissingIdColumnMessage := "Original foreshadows.tsv is missing \"id\" column."
  const TemplateMissingMessage := "Foreshadow update prompt template not found."
  const IdColumn := "id"
  const Tab := "\t"
  const LineFeed := "\n"

  /** Why `applyTsvPatch` throws: no header line to read (`header` is
      `undefined`, so `header.split` raises a `TypeError`), or a header
      without an `id` cell. */
  datatype PatchError = NoHeaderLine | NoIdColumn

  function PatchErrorMessage(e: PatchError): string {
    match e
    case NoHeaderLine => "Cannot read properties of undefined (reading 'split')"
    case NoIdColumn => MissingIdColumnMessage
  }

  /** One entry of the `Map<string, string[]>` keyed by id. */
  datatype Entry = Entry(id: string, cells: seq<string>)

  /** A JavaScript `Map` as its entries in insertion order. */
  type Table = seq<Entry>

  /** `Array.from(map.keys())`. */
  function Ids(t: Table): (r: seq<string>)
    ensures |r| == |t|
    ensures forall i | 0 <= i < |t| :: r[i] == t[i].id
  {
    seq(|t|, i requires 0 <= i < |t| => t[i].id)
  }

  predicate DistinctIds(t: Table) {
    forall i, j | 0 <= i < j < |t| :: t[i].id != t[j].id
  }

  /** `map.get(id)`. */
  function Get(t: Table, id: string): (r: Option<seq<string>>)
    ensures r.None? <==> id !in Ids(t)
    ensures r.Some? ==> exists i | 0 <= i < |t| :: t[i] == Entry(id, r.value)
  {
    match IndexOf(Ids(t), id)
    case None => None
    case Some(i) => Some(t[i].cells)
  }

  /** `map.set(id, cells)`: an existing id keeps its position and takes the
      new cells; a new id is appended. */
  function Set(t: Table, id: string, cells: seq<string>): (r: Table)
    ensures Ids(r) == if id in Ids(t) then Ids(t) else Ids(t) + [id]
    ensures DistinctIds(t) ==> DistinctIds(r)
    ensures Get(r, id) == Some(cells)
    ensures forall other | other != id :: Get(r, other) == Get(t, other)
    ensures forall i | 0 <= i < |r| :: r[i].cells == cells || r[i] in t
  {
    match IndexOf(Ids(t), id)
    case Some(i) => Replace(t, i, id, cells)
    case None => Append(t, id, cells)
  }

  /** `map.set` of an id already present at position `i`. */
  function Replace(t: Table, i: nat, id: string, cells: seq<string>): (r: Table)
    requires IndexOf(Ids(t), id) == Some(i)
    ensures Ids(r) == Ids(t)
    ensures DistinctIds(t) ==> DistinctIds(r)
    ensures Get(r, id) == Some(cells)
    ensures forall other | other != id :: Get(r, other) == Get(t, other)
    ensures forall j | 0 <= j < |r| :: r[j].cells == cells || r[j] in t
  {
    var r := t[i := Entry(id, cells)];
    assert Ids(r) == Ids(t);
    assert forall j | 0 <= j < |r| && j != i :: r[j] == t[j];
    r
  }

  /** `map.set` of a new id. */
  function Append(t: Table, id: string, cells: seq<string>): (r: Table)
    requires id !in Ids(t)
    ensures Ids(r) == Ids(t) + [id]
    ensures DistinctIds(t) ==> DistinctIds(r)
    ensures Get(r, id) == Some(cells)
    ensures forall other | other != id :: Get(r, other) == Get(t, other)
    ensures forall j | 0 <= j < |r| :: r[j].cells == cells || r[j] in t
  {
    var r := t + [Entry(id, cells)];
    assert Ids(r) == Ids(t) + [id];
    assert forall j | 0 <= j < |t| :: r[j] == t[j];
    assert IndexOf(Ids(r), id) == Some(|t|);
    assert forall other | other != id :: Get(r, other) == Get(t, other) by {
      forall other | other != id ensures Get(r, other) == Get(t, other) {
        AppendKeepsIndex(Ids(t), id, other);
      }
    }
    r
  }

  /** Appending a different key does not move the first position of another. */
  lemma AppendKeepsIndex(xs: seq<string>, x: string, y: string)
    requires x != y
    ensures IndexOf(xs + [x], y) == IndexOf(xs, y)
  {
    var a, b := IndexOf(xs + [x], y), IndexOf(xs, y);
    if b.Some? {
      assert (xs + [x])[b.value] == y;
    }
    if a.Some? {
      assert a.value < |xs|;
      assert xs[a.value] == y;
    }
  }

  /** One row stored under the cell at `idIndex`, when it has one. */
  function Upsert(t: Table, row: seq<string>, idIndex: nat): Table {
    if |row| > idIndex then Set(t, row[idIndex], row) else t
  }

  /** The `for` loops of `applyTsvPatch`: each row in turn. */
  function UpsertAll(t: Table, rows: seq<seq<string>>, idIndex: nat): (r: Table)
    ensures DistinctIds(t) ==> DistinctIds(r)
    ensures forall i | 0 <= i < |r| :: r[i] in t || r[i].cells in rows
    decreases |rows|
  {
    if |rows| == 0 then t
    else
      var next := Upsert(t, rows[0], idIndex);
      var r := UpsertAll(next, rows[1..], idIndex);
      assert forall i | 0 <= i < |r| :: r[i] in t || r[i].cells in rows by {
        forall i | 0 <= i < |r| ensures r[i] in t || r[i].cells in rows {
          if r[i] !in next {
            assert r[i].cells in rows[1..];
          } else if |rows[0]| > idIndex {
            var j :| 0 <= j < |next| && next[j] == r[i];
          }
        }
      }
      r
  }

  /** The row has an id cell holding `id`. */
  predicate HasId(row: seq<string>, idIndex: nat, id: string) {
    |row| > idIndex && row[idIndex] == id
  }

  /** The last row carrying `id`, if any: the one whose content survives. */
  function LastRowWithId(rows: seq<seq<string>>, idIndex: nat, id: string): (r: Option<seq<string>>)
    ensures r.None? <==> forall k | 0 <= k < |rows| :: !HasId(rows[k], idIndex, id)
    ensures r.Some? ==> exists k | 0 <= k < |rows| :: rows[k] == r.value && HasId(rows[k], idIndex, id)
                          && forall j | k < j < |rows| :: !HasId(rows[j], idIndex, id)
    decreases |rows|
  {
    if |rows| == 0 then None
    else
      var last := rows[|rows| - 1];
      var front := rows[..|rows| - 1];
      if HasId(last, idIndex, id) then Some(last)
      else
        var r := LastRowWithId(front, idIndex, id);
        assert forall k | 0 <= k < |front| :: rows[k] == front[k];
        r
  }

  /** The ids a run of rows adds to a map already holding `seen`, in the
      order of their first appearance. */
  function NewIds(seen: seq<string>, rows: seq<seq<string>>, idIndex: nat): seq<string>
    decreases |rows|
  {
    if |rows| == 0 then []
    else if |rows[0]| > idIndex && rows[0][idIndex] !in seen then
      [rows[0][idIndex]] + NewIds(seen + [rows[0][idIndex]], rows[1..], idIndex)
    else NewIds(seen, rows[1..], idIndex)
  }

  /** Keyed merge, content: an id's entry holds the last row that carries
      it, or what the map held before when no row does. */
  lemma {:induction false} UpsertAllGet(t: Table, rows: seq<seq<string>>, idIndex: nat, id: string)
    requires DistinctIds(t)
    ensures Get(UpsertAll(t, rows, idIndex), id) ==
              if LastRowWithId(rows, idIndex, id).Some? then LastRowWithId(rows, idIndex, id) else Get(t, id)
    decreases |rows|
  {
    if |rows| > 0 {
      var next := Upsert(t, rows[0], idIndex);
      UpsertAllGet(next, rows[1..], idIndex, id);
      LastRowFront(rows, idIndex, id);
    }
  }

  /** The last row carrying an id, seen from the front: the last one among
      the later rows, or else the first row itself. */
  lemma LastRowFront(rows: seq<seq<string>>, idIndex: nat, id: string)
    requires |rows| > 0
    ensures LastRowWithId(rows, idIndex, id) ==
              if LastRowWithId(rows[1..], idIndex, id).Some? then LastRowWithId(rows[1..], idIndex, id)
              else if HasId(rows[0], idIndex, id) then Some(rows[0]) else None
  {
    var a := LastRowWithId(rows, idIndex, id);
    var b := LastRowWithId(rows[1..], idIndex, id);
    if b.Some? {
      var k :| 0 <= k < |rows[1..]| && rows[1..][k] == b.value && HasId(rows[1..][k], idIndex, id)
               && forall j | k < j < |rows[1..]| :: !HasId(rows[1..][j], idIndex, id);
      assert rows[k + 1] == b.value;
      LastRowUnique(rows, idIndex, id, k + 1);
    } else if HasId(rows[0], idIndex, id) {
      assert forall j | 0 < j < |rows| :: rows[j] == rows[1..][j - 1];
      LastRowUnique(rows, idIndex, id, 0);
    } else {
      assert forall j | 0 < j < |rows| :: rows[j] == rows[1..][j - 1];
    }
  }

  /** The last row carrying an id is the row at any position after which no
      row carries it. */
  lemma {:induction false} LastRowUnique(rows: seq<seq<string>>, idIndex: nat, id: string, k: nat)
    requires k < |rows| && HasId(rows[k], idIndex, id)
    requires forall j | k < j < |rows| :: !HasId(rows[j], idIndex, id)
    ensures LastRowWithId(rows, idIndex, id) == Some(rows[k])
    decreases |rows|
  {
    if k < |rows| - 1 {
      var front := rows[..|rows| - 1];
      assert !HasId(rows[|rows| - 1], idIndex, id);
      LastRowUnique(front, idIndex, id, k);
    }
  }

  /** Keyed merge, order: the ids already present keep their positions and
      the new ids follow in order of first appearance. */
  lemma {:induction false} UpsertAllIds(t: Table, rows: seq<seq<string>>, idIndex: nat)
    ensures Ids(UpsertAll(t, rows, idIndex)) == Ids(t) + NewIds(Ids(t), rows, idIndex)
    decreases |rows|
  {
    if |rows| > 0 {
      var next := Upsert(t, rows[0], idIndex);
      var rest := rows[1..];
      UpsertAllIds(next, rest, idIndex);
      assert UpsertAll(t, rows, idIndex) == UpsertAll(next, rest, idIndex);
      if |rows[0]| > idIndex && rows[0][idIndex] !in Ids(t) {
        var id := rows[0][idIndex];
        assert Ids(next) == Ids(t) + [id];
        assert NewIds(Ids(t), rows, idIndex) == [id] + NewIds(Ids(next), rest, idIndex);
        assert Ids(next) + NewIds(Ids(next), rest, idIndex) == Ids(t) + ([id] + NewIds(Ids(next), rest, idIndex));
      } else {
        assert Ids(next) == Ids(t);
        assert NewIds(Ids(t), rows, idIndex) == NewIds(Ids(t), rest, idIndex);
      }
    }
  }

  /** The cells of every line. */
  function Rows(lines: seq<string>): (r: seq<seq<string>>)
    ensures |r| == |lines|
    ensures forall k | 0 <= k < |lines| :: r[k] == Split(lines[k], Tab)
  {
    Map(lines, line => Split(line, Tab))
  }

  /** The patch lines after an optional header: the first line is skipped
      exactly when one of its cells is `id`. */
  function PatchBody(patchLines: seq<string>): (r: seq<string>)
    requires |patchLines| > 0
    ensures IdColumn in Split(patchLines[0], Tab) ==> r == patchLines[1..]
    ensures IdColumn !in Split(patchLines[0], Tab) ==> r == patchLines
  {
    if IdColumn in Split(patchLines[0], Tab) then patchLines[1..] else patchLines
  }

  /** The map after both loops: the original rows, then the patch rows. */
  function Merged(originalLines: seq<string>, patchLines: seq<string>, idIndex: nat): (r: Table)
    requires |originalLines| > 0 && |patchLines| > 0
    ensures DistinctIds(r)
  {
    UpsertAll(UpsertAll([], Rows(originalLines[1..]), idIndex), Rows(PatchBody(patchLines)), idIndex)
  }

  function RowText(e: Entry): string {
    Join(e.cells, Tab)
  }

  /** `applyTsvPatch`. */
  function ApplyTsvPatch(original: string, patch: string): (r: Result<string, PatchError>)
    ensures NonBlankLines(patch) == [] ==> r == Ok(original)
    ensures NonBlankLines(patch) != [] && NonBlankLines(original) == [] ==> r == Err(NoHeaderLine)
    ensures NonBlankLines(patch) != [] && NonBlankLines(original) != [] ==>
              (r == Err(NoIdColumn) <==> IdColumn !in Split(NonBlankLines(original)[0], Tab))
    ensures NonBlankLines(patch) != [] && r.Ok? ==> StartsWith(r.value, NonBlankLines(original)[0])
  {
    var originalLines := NonBlankLines(original);
    var patchLines := NonBlankLines(patch);
    if |patchLines| == 0 then Ok(original)
    else if |originalLines| == 0 then Err(NoHeaderLine)
    else
      var header := originalLines[0];
      match ContextExtractor.ColumnIndex(header, IdColumn)
      case None => Err(NoIdColumn)
      case Some(idIndex) =>
        var merged := Merged(originalLines, patchLines, idIndex);
        var lines := [header] + Map(merged, RowText);
        JoinStartsWithFirst(lines, LineFeed);
        Ok(Join(lines, LineFeed))
  }

  lemma JoinStartsWithFirst(parts: seq<string>, sep: string)
    requires |parts| > 0
    ensures StartsWith(Join(parts, sep), parts[0])
  {
    if |parts| > 1 {
      assert Join(parts, sep) == parts[0] + (sep + Join(parts[1..], sep));
    }
  }

  /** The patched file, line by line: the original header, then one line
      per id of the merged map, in map order — the ids of the original
      rows first, then the ids only the patch brings, each line holding the
      last patch row with that id, or else the last original row with it. */
  lemma ApplyTsvPatchLines(original: string, patch: string, id: string)
    requires NonBlankLines(patch) != [] && NonBlankLines(original) != []
    requires ContextExtractor.ColumnIndex(NonBlankLines(original)[0], IdColumn).Some?
    ensures var originalLines := NonBlankLines(original);
            var patchLines := NonBlankLines(patch);
            var idIndex := ContextExtractor.ColumnIndex(originalLines[0], IdColumn).value;
            var merged := Merged(originalLines, patchLines, idIndex);
            var before := Rows(originalLines[1..]);
            var after := Rows(PatchBody(patchLines));
            && Split(ApplyTsvPatch(original, patch).value, LineFeed) == [originalLines[0]] + Map(merged, RowText)
            && Ids(merged) == NewIds([], before, idIndex) + NewIds(NewIds([], before, idIndex), after, idIndex)
            && Get(merged, id) == if LastRowWithId(after, idIndex, id).Some? then LastRowWithId(after, idIndex, id)
                                  else LastRowWithId(before, idIndex, id)
  {
    var originalLines := NonBlankLines(original);
    var patchLines := NonBlankLines(patch);
    var idIndex := ContextExtractor.ColumnIndex(originalLines[0], IdColumn).value;
    var lines := [originalLines[0]] + Map(Merged(originalLines, patchLines, idIndex), RowText);
    assert ApplyTsvPatch(original, patch) == Ok(Join(lines, LineFeed));
    MergedLinesSplit(originalLines, patchLines, idIndex);
    TwoRunMerge(Rows(originalLines[1..]), Rows(PatchBody(patchLines)), idIndex, id);
  }

  /** The output lines split back apart at the line feeds joining them. */
  lemma MergedLinesSplit(originalLines: seq<string>, patchLines: seq<string>, idIndex: nat)
    requires |originalLines| > 0 && |patchLines| > 0
    requires forall j | 0 <= j < |originalLines| :: '\n' !in originalLines[j]
    requires forall j | 0 <= j < |patchLines| :: '\n' !in patchLines[j]
    ensures var lines := [originalLines[0]] + Map(Merged(originalLines, patchLines, idIndex), RowText);
            Split(Join(lines, LineFeed), LineFeed) == lines
  {
    var lines := [originalLines[0]] + Map(Merged(originalLines, patchLines, idIndex), RowText);
    forall k | 0 <= k < |lines| ensures !Contains(lines[k], LineFeed) {
      RowTextSingleLine(originalLines, patchLines, idIndex, lines, k);
      NoCharNoOccurrence(lines[k], '\n');
    }
    SplitJoin(lines, LineFeed);
  }

  /** The order and contents of a map built from empty by two runs of
      rows, from the two keyed-merge lemmas. */
  lemma TwoRunMerge(before: seq<seq<string>>, after: seq<seq<string>>, idIndex: nat, id: string)
    ensures var merged := UpsertAll(UpsertAll([], before, idIndex), after, idIndex);
            && Ids(merged) == NewIds([], before, idIndex) + NewIds(NewIds([], before, idIndex), after, idIndex)
            && Get(merged, id) == if LastRowWithId(after, idIndex, id).Some? then LastRowWithId(after, idIndex, id)
                                  else LastRowWithId(before, idIndex, id)
  {
    TwoRunIds(before, after, idIndex);
    TwoRunGet(before, after, idIndex, id);
  }

  lemma TwoRunIds(before: seq<seq<string>>, after: seq<seq<string>>, idIndex: nat)
    ensures Ids(UpsertAll(UpsertAll([], before, idIndex), after, idIndex)) ==
              NewIds([], before, idIndex) + NewIds(NewIds([], before, idIndex), after, idIndex)
  {
    var empty: Table := [];
    assert Ids(empty) == [];
    var first := UpsertAll(empty, before, idIndex);
    UpsertAllIds(empty, before, idIndex);
    assert Ids(first) == NewIds([], before, idIndex);
    UpsertAllIds(first, after, idIndex);
  }

  lemma TwoRunGet(before: seq<seq<string>>, after: seq<seq<string>>, idIndex: nat, id: string)
    ensures Get(UpsertAll(UpsertAll([], before, idIndex), after, idIndex), id) ==
              if LastRowWithId(after, idIndex, id).Some? then LastRowWithId(after, idIndex, id)
              else LastRowWithId(before, idIndex, id)
  {
    var empty: Table := [];
    var first := UpsertAll(empty, before, idIndex);
    UpsertAllGet(empty, before, idIndex, id);
    assert Get(first, id) == LastRowWithId(before, idIndex, id);
    UpsertAllGet(first, after, idIndex, id);
  }

  /** No output line contains a line feed: header and cells come from
      lines that had none. */
  lemma RowTextSingleLine(originalLines: seq<string>, patchLines: seq<string>, idIndex: nat, lines: seq<string>, k: nat)
    requires |originalLines| > 0 && |patchLines| > 0
    requires forall j | 0 <= j < |originalLines| :: '\n' !in originalLines[j]
    requires forall j | 0 <= j < |patchLines| :: '\n' !in patchLines[j]
    requires lines == [originalLines[0]] + Map(Merged(originalLines, patchLines, idIndex), RowText)
    requires k < |lines|
    ensures '\n' !in lines[k]
  {
    if k > 0 {
      var e := Merged(originalLines, patchLines, idIndex)[k - 1];
      assert lines[k] == RowText(e);
      MergedRowSingleLine(originalLines, patchLines, idIndex, e);
    }
  }

  /** Every merged entry was split from an original or a patch line. */
  lemma MergedRowSingleLine(originalLines: seq<string>, patchLines: seq<string>, idIndex: nat, e: Entry)
    requires |originalLines| > 0 && |patchLines| > 0
    requires forall j | 0 <= j < |originalLines| :: '\n' !in originalLines[j]
    requires forall j | 0 <= j < |patchLines| :: '\n' !in patchLines[j]
    requires e in Merged(originalLines, patchLines, idIndex)
    ensures '\n' !in RowText(e)
  {
    var before := Rows(originalLines[1..]);
    var after := Rows(PatchBody(patchLines));
    var first := UpsertAll([], before, idIndex);
    var src: string;
    if e in first {
      var i :| 0 <= i < |first| && first[i] == e;
      var j :| 0 <= j < |before| && before[j] == e.cells;
      src := originalLines[1..][j];
      assert src == originalLines[j + 1];
    } else {
      var j :| 0 <= j < |after| && after[j] == e.cells;
      src := PatchBody(patchLines)[j];
      assert src in patchLines;
    }
    CellsSingleLine(src, e.cells);
  }

  /** The cells of a line without a line feed, joined back by tabs, have none. */
  lemma CellsSingleLine(src: string, cells: seq<string>)
    requires '\n' !in src && cells == Split(src, Tab)
    ensures '\n' !in Join(cells, Tab)
  {
    SplitKeepsChars(src, Tab, '\n');
    forall j | 0 <= j < |cells| ensures !Contains(cells[j], ['\n']) {
      NoCharNoOccurrence(cells[j], '\n');
    }
    NoCharInJoin(cells, Tab, '\n');
  }

  /** The text the pipeline writes back, if any. */
  datatype Outcome = NothingSuggested | Written(tsv: string)

  /** The request of the pipeline: the template with the first
      `{{foreshadows_tsv}}` and then the first `{{chapter_content}}` filled,
      sent with the configured sampling settings. */
  function ForeshadowRequest(template: string, tsv: string, chapter: string): (r: ChatOptions)
    ensures r.messages == [ChatMessage(User, ReplaceFirst(ReplaceFirst(template, "{{foreshadows_tsv}}", tsv), "{{chapter_content}}", chapter))]
    ensures r.temperature.None? && r.maxTokens.None? && !r.streaming
  {
    var prompt := ReplaceFirst(ReplaceFirst(template, "{{foreshadows_tsv}}", tsv), "{{chapter_content}}", chapter);
    ChatOptions([ChatMessage(User, prompt)], None, None, false)
  }

  /** `updateForeshadows` for the chapter at `chapterPath`. A blank reply
      writes nothing; otherwise the reply is applied as a patch to the
      current list; every error is rethrown. */
  function UpdateForeshadowsRun(fs: Fs, paths: ContextExtractor.ProjectPaths, chapterPath: string, llm: Llm)
    : (r: Result<Outcome, string>)
    ensures chapterPath !in fs.files ==> r.Err?
    ensures chapterPath in fs.files && ContextExtractor.PromptTemplate(fs, paths, ContextExtractor.ForeshadowUpdate) == "" ==>
              r == Err(TemplateMissingMessage)
    ensures r.Ok? ==> chapterPath in fs.files
    ensures r.Ok? ==>
              var reply := llm(ForeshadowRequest(ContextExtractor.PromptTemplate(fs, paths, ContextExtractor.ForeshadowUpdate),
                                                 ContextExtractor.ForeshadowsTsv(fs, paths), fs.files[chapterPath]));
              && reply.Ok?
              && (r.value == NothingSuggested <==> IsBlank(reply.value))
              && (r.value.Written? ==> ApplyTsvPatch(ContextExtractor.ForeshadowsTsv(fs, paths), reply.value) == Ok(r.value.tsv))
    ensures chapterPath in fs.files && ContextExtractor.PromptTemplate(fs, paths, ContextExtractor.ForeshadowUpdate) != "" ==>
              var tsv := ContextExtractor.ForeshadowsTsv(fs, paths);
              var reply := llm(ForeshadowRequest(ContextExtractor.PromptTemplate(fs, paths, ContextExtractor.ForeshadowUpdate),
                                                 tsv, fs.files[chapterPath]));
              && (reply.Err? ==> r == Err(reply.error))
              && (reply.Ok? && IsBlank(reply.value) ==> r == Ok(NothingSuggested))
              && (reply.Ok? && !IsBlank(reply.value) && ApplyTsvPatch(tsv, reply.value).Ok? ==>
                    r == Ok(Written(ApplyTsvPatch(tsv, reply.value).value)))
              && (reply.Ok? && !IsBlank(reply.value) && ApplyTsvPatch(tsv, reply.value).Err? ==>
                    r == Err(PatchErrorMessage(ApplyTsvPatch(tsv, reply.value).error)))
  {
    var template := ContextExtractor.PromptTemplate(fs, paths, ContextExtractor.ForeshadowUpdate);
    var tsv := ContextExtractor.ForeshadowsTsv(fs, paths);
    match ReadFile(fs, chapterPath)
    case Err(e) => Err(e)
    case Ok(chapter) =>
      if template == "" then Err(TemplateMissingMessage)
      else
        match llm(ForeshadowRequest(template, tsv, chapter))
        case Err(e) => Err(e)
        case Ok(text) =>
          if IsBlank(text) then Ok(NothingSuggested)
          else match ApplyTsvPatch(tsv, text)
            case Err(e) => Err(PatchErrorMessage(e))
            case Ok(updated) => Ok(Written(updated))
  }
}
