/** The workspace as the commands see it: a snapshot of file contents and
    directory listings. Reading a path the snapshot does not hold is the
    error `vscode.workspace.fs` would raise. */
module Workspace {
  import opened Wrappers
  import opened Text
  import opened Seqs

  /** `vscode.FileType`: a symbolic link is its own kind, so a link to a
      regular file is not a `File`. */
  datatype FileKind = Unknown | File | Directory | SymbolicLink

  /** One `[name, type]` pair of `readDirectory`. */
  datatype DirEntry = DirEntry(name: string, kind: FileKind)

  datatype Fs = Fs(files: map<string, string>, dirs: map<string, seq<DirEntry>>)

  /** `path.join(dir, name)` for a plain file name. */
  function JoinPath(dir: string, name: string): string {
    dir + "/" + name
  }

  /** A name built in two parts joins to the same path. */
  lemma JoinPathOfParts(dir: string, name: string, ending: string)
    ensures dir + "/" + name + ending == JoinPath(dir, name + ending)
  {
  }

  /** `path.basename` of a path without a trailing separator: the text after
      the last `/`, or the whole path when it has none. */
  function Basename(path: string): (r: string)
    ensures '/' !in r && EndsWith(path, r)
    ensures |r| < |path| ==> path[|path| - |r| - 1] == '/'
  {
    if |path| == 0 || path[|path| - 1] == '/' then ""
    else Basename(path[..|path| - 1]) + [path[|path| - 1]]
  }

  /** The base name of a file joined to a directory is the file name. */
  lemma {:induction false} BasenameOfJoin(dir: string, name: string)
    requires '/' !in name
    ensures Basename(JoinPath(dir, name)) == name
    decreases |name|
  {
    var p := JoinPath(dir, name);
    if |name| > 0 {
      var init := name[..|name| - 1];
      assert p[..|p| - 1] == JoinPath(dir, init);
      assert '/' !in init by {
        forall i | 0 <= i < |init| ensures init[i] != '/' { assert init[i] == name[i]; }
      }
      BasenameOfJoin(dir, init);
      assert name == init + [name[|name| - 1]];
    }
  }

  /** `readFileContent`: the decoded text, or the error it rethrows. */
  function ReadFile(fs: Fs, path: string): (r: Result<string, string>)
    ensures r.Ok? <==> path in fs.files
    ensures r.Ok? ==> r.value == fs.files[path]
  {
    if path in fs.files then Ok(fs.files[path]) else Err("Could not read file: " + Basename(path))
  }

  /** The `getFileContentSafe` / `getFileContent` helpers: a file that cannot
      be read counts as empty. */
  function ReadOrEmpty(fs: Fs, path: string): (r: string)
    ensures path !in fs.files ==> r == ""
    ensures r != "" ==> ReadFile(fs, path) == Ok(r)
  {
    match ReadFile(fs, path)
    case Ok(text) => text
    case Err(_) => ""
  }

  /** `vscode.workspace.fs.readDirectory`. */
  function ReadDirectory(fs: Fs, dir: string): (r: Result<seq<DirEntry>, string>)
    ensures r.Ok? <==> dir in fs.dirs
  {
    if dir in fs.dirs then Ok(fs.dirs[dir]) else Err("FileNotFound: " + dir)
  }

  /** The names of the regular files of a listing whose name `accept`s, in
      listing order — the `filter(type === File && …).map(name)` idiom. */
  function RegularFileNames(entries: seq<DirEntry>, accept: string -> bool): (names: seq<string>)
    ensures |names| <= |entries|
    ensures forall k | 0 <= k < |names| :: accept(names[k])
    ensures forall e | e in entries && e.kind == File && accept(e.name) :: e.name in names
    ensures forall n | n in names :: DirEntry(n, File) in entries
    decreases |entries|
  {
    if |entries| == 0 then []
    else
      var e := entries[0];
      assert entries == [e] + entries[1..];
      (if e.kind == File && accept(e.name) then [e.name] else []) + RegularFileNames(entries[1..], accept)
  }

  lemma {:induction false} RegularFileNamesAppend(a: seq<DirEntry>, b: seq<DirEntry>, accept: string -> bool)
    ensures RegularFileNames(a + b, accept) == RegularFileNames(a, accept) + RegularFileNames(b, accept)
    decreases |a|
  {
    if |a| > 0 {
      RegularFileNamesAppend(a[1..], b, accept);
      RegularFileNamesConsAppend(a, b, accept);
      AppendAssoc(KeptName(a[0], accept), RegularFileNames(a[1..], accept), RegularFileNames(b, accept));
    } else {
      assert a + b == b;
    }
  }

  /** The name an entry contributes: its own if it is an accepted regular file. */
  function KeptName(e: DirEntry, accept: string -> bool): (r: seq<string>)
    ensures r == [] || r == [e.name]
  {
    if e.kind == File && accept(e.name) then [e.name] else []
  }

  lemma AppendAssoc(h: seq<string>, x: seq<string>, y: seq<string>)
    ensures h + (x + y) == (h + x) + y
  {
  }

  /** One step of `RegularFileNames` on a listing `a + b` with `a` non-empty. */
  lemma RegularFileNamesConsAppend(a: seq<DirEntry>, b: seq<DirEntry>, accept: string -> bool)
    requires |a| > 0
    ensures RegularFileNames(a, accept) == KeptName(a[0], accept) + RegularFileNames(a[1..], accept)
    ensures RegularFileNames(a + b, accept) == KeptName(a[0], accept) + RegularFileNames(a[1..] + b, accept)
  {
    RegularFileNamesCons(a + b, accept);
    assert (a + b)[0] == a[0] && (a + b)[1..] == a[1..] + b;
  }

  /** One step of `RegularFileNames`. */
  lemma RegularFileNamesCons(entries: seq<DirEntry>, accept: string -> bool)
    requires |entries| > 0
    ensures RegularFileNames(entries, accept) == KeptName(entries[0], accept) + RegularFileNames(entries[1..], accept)
  {
  }

  /** `filter(type === File && accept(name)).map(name).sort().reverse()`:
      the accepted regular files, greatest name first. */
  function NamesNewestFirst(entries: seq<DirEntry>, accept: string -> bool): (r: seq<string>)
    ensures SortedDescending(r)
    ensures multiset(r) == multiset(RegularFileNames(entries, accept))
    ensures forall k | 0 <= k < |r| :: accept(r[k]) && DirEntry(r[k], File) in entries
    ensures forall e | e in entries && e.kind == File && accept(e.name) :: e.name in r
  {
    SortedNamesFromListing(entries, accept);
    SortDescending(RegularFileNames(entries, accept))
  }

  /** Sorting neither adds nor loses a name of the listing. */
  lemma SortedNamesFromListing(entries: seq<DirEntry>, accept: string -> bool)
    ensures var r := SortDescending(RegularFileNames(entries, accept));
            && (forall k | 0 <= k < |r| :: accept(r[k]) && DirEntry(r[k], File) in entries)
            && (forall e | e in entries && e.kind == File && accept(e.name) :: e.name in r)
  {
    var names := RegularFileNames(entries, accept);
    PermutedNames(entries, accept, names, SortDescending(names));
  }

  /** Any rearrangement of the accepted names keeps exactly the accepted
      regular files of the listing. */
  lemma PermutedNames(entries: seq<DirEntry>, accept: string -> bool, names: seq<string>, r: seq<string>)
    requires multiset(r) == multiset(names)
    requires forall k | 0 <= k < |names| :: accept(names[k])
    requires forall e | e in entries && e.kind == File && accept(e.name) :: e.name in names
    requires forall n | n in names :: DirEntry(n, File) in entries
    ensures forall k | 0 <= k < |r| :: accept(r[k]) && DirEntry(r[k], File) in entries
    ensures forall e | e in entries && e.kind == File && accept(e.name) :: e.name in r
  {
    SameMultisetSameMembers(r, names);
    forall k | 0 <= k < |r| ensures accept(r[k]) {
      assert r[k] in r;
      var j :| 0 <= j < |names| && names[j] == r[k];
    }
  }

  predicate IsMarkdownName(name: string) {
    EndsWith(name, ".md")
  }

  predicate IsJsonName(name: string) {
    EndsWith(name, ".json")
  }
}
