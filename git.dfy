/** The listing filter of `getRepoFiles` in src/git.ts; the `git ls-files` call itself is the
    `listing` parameter and the allowed file endings are `endings`. */
module Git {
  import opened Seqs
  import opened Text

  /** `endings.some(ending => file.endsWith(ending))`. */
  predicate HasEnding(file: string, endings: seq<string>) {
    exists e :: e in endings && EndsWith(file, e)
  }

  /** The lines of the listing that end with an allowed ending, in listing order. */
  function RepoFiles(listing: string, endings: seq<string>): (r: seq<string>)
    ensures forall i :: 0 <= i < |r| ==> HasEnding(r[i], endings)
    ensures forall line :: line in Split(listing, '\n') ==> (line in r <==> HasEnding(line, endings))
    ensures IsSubsequence(r, Split(listing, '\n'))
    ensures |r| <= Count(listing, '\n') + 1
  {
    Filter(Split(listing, '\n'), file => HasEnding(file, endings))
  }

  /** Every result is a line of the listing. */
  lemma RepoFilesAreLines(listing: string, endings: seq<string>)
    ensures forall f :: f in RepoFiles(listing, endings) ==> f in Split(listing, '\n') && '\n' !in f
  {
    var r := RepoFiles(listing, endings);
    SubsequenceMembers(r, Split(listing, '\n'));
  }

  /** The empty line left by a trailing newline survives only when some ending is empty. */
  lemma EmptyLineDropped(listing: string, endings: seq<string>)
    ensures "" in RepoFiles(listing, endings) ==> "" in endings
  {
    if "" in RepoFiles(listing, endings) {
      var e :| e in endings && EndsWith("", e);
      assert e == "";
    }
  }
}
