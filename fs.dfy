/** `applyCodeSuggestions` of src/fs.ts over an abstract file system: a map from path to
    content and a set of existing directories. */
module Fs {
  import opened Wrappers
  import opened Text

  /** One `{filePath, fileContent}` record; a missing `fileContent` is `None`. */
  datatype Suggestion = Suggestion(filePath: string, fileContent: Option<string>)

  /** `if (fileContent)`: present and not the empty string. */
  predicate HasContent(s: Suggestion) {
    s.fileContent.Some? && s.fileContent.value != ""
  }

  /** `path.dirname`: the text before the last '/', or "." when there is none. */
  function Dirname(path: string): (r: string)
    ensures '/' in path ==> |r| < |path| && r == path[..|r|] && path[|r|] == '/' && '/' !in path[|r| + 1..]
    ensures '/' !in path ==> r == "."
  {
    match LastIndexOf(path, '/')
    case None => "."
    case Some(k) => path[..k]
  }

  /** The directories a recursive `mkdir` of `dir` makes sure exist: `dir` and every prefix of it
      that ends just before a '/'. */
  function Ancestors(dir: string): (r: set<string>)
    ensures dir in r
    ensures forall k :: 0 <= k < |dir| && dir[k] == '/' ==> dir[..k] in r
    ensures forall a :: a in r ==> a == dir || (|a| < |dir| && a == dir[..|a|] && dir[|a|] == '/')
    decreases |dir|
  {
    if '/' in dir then
      var d := Dirname(dir);
      var r' := Ancestors(d);
      assert forall k :: 0 <= k < |dir| && dir[k] == '/' ==> dir[..k] in {dir} + r' by {
        forall k | 0 <= k < |dir| && dir[k] == '/' ensures dir[..k] in {dir} + r' {
          if k < |d| {
            assert d[k] == dir[k];
            assert d[..k] == dir[..k];
          }
        }
      }
      assert forall a :: a in r' ==> |a| < |dir| && a == dir[..|a|] && dir[|a|] == '/' by {
        forall a | a in r' ensures |a| < |dir| && a == dir[..|a|] && dir[|a|] == '/' {
          if a != d {
            assert a == d[..|a|] && d[|a|] == '/';
          }
        }
      }
      {dir} + r'
    else {dir}
  }

  /** The ancestors of an ancestor are ancestors: one recursive mkdir covers the whole chain. */
  lemma {:induction false} AncestorsClosed(dir: string, a: string)
    requires a in Ancestors(dir)
    ensures Ancestors(a) <= Ancestors(dir)
    decreases |dir|
  {
    if a != dir {
      AncestorsClosed(Dirname(dir), a);
    }
  }

  /** The effect of one suggestion on the file contents. */
  function Step(files: map<string, string>, s: Suggestion): map<string, string> {
    if HasContent(s) then files[s.filePath := s.fileContent.value] else files
  }

  /** The file contents after the suggestions are applied one at a time, in order. */
  function Applied(files: map<string, string>, suggestions: seq<Suggestion>): map<string, string>
    decreases |suggestions|
  {
    if suggestions == [] then files
    else Step(Applied(files, suggestions[..|suggestions| - 1]), suggestions[|suggestions| - 1])
  }

  /** The directories created for the suggestions that have content. */
  function Created(suggestions: seq<Suggestion>): set<string>
    decreases |suggestions|
  {
    if suggestions == [] then {}
    else
      var s := suggestions[|suggestions| - 1];
      Created(suggestions[..|suggestions| - 1]) + (if HasContent(s) then Ancestors(Dirname(s.filePath)) else {})
  }

  /** Every suggestion with content has its whole directory chain among the created ones. */
  lemma {:induction false} CreatedCovers(suggestions: seq<Suggestion>, i: nat)
    requires i < |suggestions| && HasContent(suggestions[i])
    ensures Ancestors(Dirname(suggestions[i].filePath)) <= Created(suggestions)
    decreases |suggestions|
  {
    if i < |suggestions| - 1 {
      var init := suggestions[..|suggestions| - 1];
      assert init[i] == suggestions[i];
      CreatedCovers(init, i);
    }
  }

  /** `CreatedCovers` for every suggestion with content at once. */
  lemma CreatedCoversAll(suggestions: seq<Suggestion>)
    ensures forall i :: 0 <= i < |suggestions| && HasContent(suggestions[i]) ==>
              Ancestors(Dirname(suggestions[i].filePath)) <= Created(suggestions)
  {
    forall i | 0 <= i < |suggestions| && HasContent(suggestions[i])
      ensures Ancestors(Dirname(suggestions[i].filePath)) <= Created(suggestions)
    {
      CreatedCovers(suggestions, i);
    }
  }

  /** Writing `s` makes sure directory `d` exists. */
  predicate CreatesDir(s: Suggestion, d: string) {
    HasContent(s) && d in Ancestors(Dirname(s.filePath))
  }

  /** Exactly the directory chains of the suggestions with content are created. */
  lemma CreatedExactly(suggestions: seq<Suggestion>, d: string)
    ensures d in Created(suggestions) <==> exists i :: 0 <= i < |suggestions| && CreatesDir(suggestions[i], d)
  {
    if d in Created(suggestions) {
      CreatedOnlyWritten(suggestions, d);
    }
    if exists i :: 0 <= i < |suggestions| && CreatesDir(suggestions[i], d) {
      var i :| 0 <= i < |suggestions| && CreatesDir(suggestions[i], d);
      CreatedCovers(suggestions, i);
    }
  }

  /** Every created directory belongs to the chain of some suggestion with content. */
  lemma {:induction false} CreatedOnlyWritten(suggestions: seq<Suggestion>, d: string)
    requires d in Created(suggestions)
    ensures exists i :: 0 <= i < |suggestions| && CreatesDir(suggestions[i], d)
    decreases |suggestions|
  {
    var n := |suggestions| - 1;
    var init := suggestions[..n];
    if CreatesDir(suggestions[n], d) {
      assert 0 <= n < |suggestions| && CreatesDir(suggestions[n], d);
    } else {
      CreatedOnlyWritten(init, d);
      var i :| 0 <= i < |init| && CreatesDir(init[i], d);
      assert suggestions[i] == init[i];
    }
  }

  /** Creating for a concatenation creates for both parts. */
  lemma {:induction false} CreatedAppend(a: seq<Suggestion>, b: seq<Suggestion>)
    ensures Created(a + b) == Created(a) + Created(b)
    decreases |b|
  {
    if b == [] {
      assert a + b == a;
    } else {
      var b' := b[..|b| - 1];
      assert (a + b)[..|a + b| - 1] == a + b';
      CreatedAppend(a, b');
    }
  }

  /** The paths reported as having no content, in order. */
  function Skipped(suggestions: seq<Suggestion>): seq<string>
    decreases |suggestions|
  {
    if suggestions == [] then []
    else
      var s := suggestions[|suggestions| - 1];
      Skipped(suggestions[..|suggestions| - 1]) + (if HasContent(s) then [] else [s.filePath])
  }

  /** The content of the last suggestion with content for `path`, if any. */
  function LastContent(suggestions: seq<Suggestion>, path: string): Option<string>
    decreases |suggestions|
  {
    if suggestions == [] then None
    else
      var s := suggestions[|suggestions| - 1];
      if HasContent(s) && s.filePath == path then s.fileContent
      else LastContent(suggestions[..|suggestions| - 1], path)
  }

  /** Later suggestions overwrite earlier ones; a path no suggestion with content targets keeps
      what it had (or stays absent). */
  lemma {:induction false} AppliedAt(files: map<string, string>, suggestions: seq<Suggestion>, path: string)
    ensures var r := Applied(files, suggestions);
            match LastContent(suggestions, path)
            case Some(c) => path in r && r[path] == c
            case None => (path in r <==> path in files) && (path in files ==> r[path] == files[path])
    decreases |suggestions|
  {
    if suggestions != [] {
      AppliedAt(files, suggestions[..|suggestions| - 1], path);
    }
  }

  /** Applying a concatenation applies the first part, then the second. */
  lemma {:induction false} AppliedAppend(files: map<string, string>, a: seq<Suggestion>, b: seq<Suggestion>)
    ensures Applied(files, a + b) == Applied(Applied(files, a), b)
    decreases |b|
  {
    if b == [] {
      assert a + b == a;
    } else {
      var b' := b[..|b| - 1];
      assert (a + b)[..|a + b| - 1] == a + b';
      AppliedAppend(files, a, b');
    }
  }

  /** A suggestion without content can be removed from the batch without changing the outcome:
      neither the file contents nor the created directories depend on it. */
  lemma SkippedHasNoEffect(files: map<string, string>, a: seq<Suggestion>, s: Suggestion, b: seq<Suggestion>)
    requires !HasContent(s)
    ensures Applied(files, a + [s] + b) == Applied(files, a + b)
    ensures Created(a + [s] + b) == Created(a + b)
  {
    AppliedAppend(files, a + [s], b);
    AppliedAppend(files, a, b);
    assert (a + [s])[..|a|] == a;
    CreatedAppend(a + [s], b);
    CreatedAppend(a, b);
  }

  /** "a/b.txt" with "hi" written into an empty file system. */
  lemma SingleSuggestionExample()
    ensures Applied(map[], [Suggestion("a/b.txt", Some("hi"))]) == map["a/b.txt" := "hi"]
    ensures Created([Suggestion("a/b.txt", Some("hi"))]) == {"a"}
  {
    SingleSuggestionApplied();
    SingleSuggestionCreated();
  }

  lemma SingleSuggestionApplied()
    ensures Applied(map[], [Suggestion("a/b.txt", Some("hi"))]) == map["a/b.txt" := "hi"]
  {
    var ss := [Suggestion("a/b.txt", Some("hi"))];
    assert ss[..0] == [];
  }

  lemma SingleSuggestionCreated()
    ensures Created([Suggestion("a/b.txt", Some("hi"))]) == {"a"}
  {
    assert '/' in "a/b.txt" by { assert "a/b.txt"[1] == '/'; }
    assert Dirname("a/b.txt") == "a";
    assert '/' !in "a";
    var ss := [Suggestion("a/b.txt", Some("hi"))];
    assert ss[..0] == [];
  }

  /** The working tree seen by the applier. */
  class FileSystem {
    var files: map<string, string>
    var dirs: set<string>

    constructor (files0: map<string, string>, dirs0: set<string>)
      ensures files == files0 && dirs == dirs0
    {
      files := files0;
      dirs := dirs0;
    }

    /** `fs.mkdir(dir, { recursive: true })`. */
    method Mkdir(dir: string)
      modifies this
      ensures dirs == old(dirs) + Ancestors(dir) && files == old(files)
    {
      dirs := dirs + Ancestors(dir);
    }

    /** `fs.writeFile(path, data)`: the whole previous content is replaced. The directory
        chain of `path` must already exist; otherwise Node fails with ENOENT. */
    method WriteFile(path: string, data: string)
      requires Ancestors(Dirname(path)) <= dirs
      modifies this
      ensures files == old(files)[path := data] && dirs == old(dirs)
    {
      files := files[path := data];
    }

    /** The branch of `applyCodeSuggestions` for a suggestion with content: create its directory
        chain, then write the file. */
    method WriteSuggestion(s: Suggestion)
      requires HasContent(s)
      modifies this
      ensures files == Step(old(files), s)
      ensures dirs == old(dirs) + Ancestors(Dirname(s.filePath))
    {
      var dirPath := Dirname(s.filePath);
      Mkdir(dirPath);
      WriteFile(s.filePath, s.fileContent.value);
    }

    /** `applyCodeSuggestions`: for each suggestion in order, create its directory and write it
        when it has content, otherwise report its path and go on. */
    method ApplyCodeSuggestions(suggestions: seq<Suggestion>) returns (skipped: seq<string>)
      modifies this
      ensures files == Applied(old(files), suggestions)
      ensures dirs == old(dirs) + Created(suggestions)
      ensures skipped == Skipped(suggestions)
      ensures forall i :: 0 <= i < |suggestions| && HasContent(suggestions[i]) ==>
                Ancestors(Dirname(suggestions[i].filePath)) <= dirs
    {
      skipped := [];
      ghost var files0, dirs0 := files, dirs;
      for i := 0 to |suggestions|
        invariant files == Applied(files0, suggestions[..i])
        invariant dirs == dirs0 + Created(suggestions[..i])
        invariant skipped == Skipped(suggestions[..i])
      {
        var s := suggestions[i];
        ghost var prefix := suggestions[..i];
        assert suggestions[..i + 1] == prefix + [s];
        assert (prefix + [s])[..i] == prefix;
        if HasContent(s) {
          WriteSuggestion(s);
        } else {
          skipped := skipped + [s.filePath];
        }
      }
      assert suggestions[..|suggestions|] == suggestions;
      CreatedCoversAll(suggestions);
    }
  }
}
