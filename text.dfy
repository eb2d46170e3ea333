/** The JavaScript string operations the core relies on, over `string` (= seq<char>). */
module Text {
  import opened Wrappers
  import opened Seqs

  /** The whitespace class of `String.prototype.trim` and of the regular-expression class `\s`,
      restricted to its ASCII members. */
  predicate IsSpace(c: char) {
    c == ' ' || c == '\t' || c == '\n' || c == '\r' || c == 11 as char || c == 12 as char
  }

  predicate AllSpace(s: string) {
    forall i :: 0 <= i < |s| ==> IsSpace(s[i])
  }

  predicate NoSpace(s: string) {
    forall i :: 0 <= i < |s| ==> !IsSpace(s[i])
  }

  /** Neither end of `s` is whitespace. */
  predicate IsTrimmed(s: string) {
    s == [] || (!IsSpace(s[0]) && !IsSpace(s[|s| - 1]))
  }

  /** `s` without its leading whitespace. */
  function TrimStart(s: string): (r: string)
    ensures |r| <= |s| && r == s[|s| - |r|..]
    ensures r == [] || !IsSpace(r[0])
    ensures AllSpace(s[..|s| - |r|])
    decreases |s|
  {
    if s != [] && IsSpace(s[0]) then TrimStart(s[1..]) else s
  }

  /** `s` without its trailing whitespace. */
  function TrimEnd(s: string): (r: string)
    ensures |r| <= |s| && r == s[..|r|]
    ensures r == [] || !IsSpace(r[|r| - 1])
    ensures AllSpace(s[|r|..])
    decreases |s|
  {
    if s != [] && IsSpace(s[|s| - 1]) then
      var t := s[..|s| - 1];
      var r := TrimEnd(t);
      assert s[|r|..] == t[|r|..] + [s[|s| - 1]];
      r
    else s
  }

  /** `String.prototype.trim`: the result has no whitespace at either end (see `TrimInfix` for
      where it lies in `s`). */
  function Trim(s: string): (r: string)
    ensures IsTrimmed(r) && |r| <= |s|
  {
    TrimEnd(TrimStart(s))
  }

  /** The part of `s` that `TrimEnd` keeps and the part it drops, after a prefix of length `i`. */
  lemma TrimEndOfSuffix(s: string, i: nat, t: string, r: string)
    requires i <= |s| && t == s[i..] && r == TrimEnd(t)
    ensures i + |r| <= |s| && r == s[i..i + |r|] && AllSpace(s[i + |r|..])
  {
    DropSlices(s, i, |r|);
    assert AllSpace(t[|r|..]);
  }

  /** `TrimStart` drops exactly the first `i` characters, all of them whitespace. */
  lemma TrimStartAt(s: string, i: nat)
    requires i == |s| - |TrimStart(s)|
    ensures TrimStart(s) == s[i..] && AllSpace(s[..i])
  {
  }

  /** The trimmed text starts where the leading whitespace ends. */
  lemma TrimKeptAt(s: string, i: nat)
    requires i == |s| - |TrimStart(s)|
    ensures i + |Trim(s)| <= |s| && Trim(s) == s[i..i + |Trim(s)|]
  {
    TrimStartAt(s, i);
    TrimEndOfSuffix(s, i, TrimStart(s), Trim(s));
  }

  /** What follows the trimmed text is whitespace. */
  lemma TrimDroppedAt(s: string, i: nat)
    requires i == |s| - |TrimStart(s)|
    ensures i + |Trim(s)| <= |s| && AllSpace(s[i + |Trim(s)|..])
  {
    TrimStartAt(s, i);
    TrimEndOfSuffix(s, i, TrimStart(s), Trim(s));
  }

  /** `s` is the trimmed text surrounded by whitespace on both sides. */
  lemma TrimInfix(s: string)
    ensures var r := Trim(s);
            exists i :: 0 <= i <= |s| - |r| && r == s[i..i + |r|]
              && AllSpace(s[..i]) && AllSpace(s[i + |r|..])
  {
    var i := |s| - |TrimStart(s)|;
    TrimStartAt(s, i);
    TrimKeptAt(s, i);
    TrimDroppedAt(s, i);
  }

  /** Trimming does not reach past a non-space character into a prefix. */
  lemma {:induction false} TrimEndKeepsPrefix(a: string, b: string)
    requires a != [] && !IsSpace(a[|a| - 1])
    ensures TrimEnd(a + b) == a + TrimEnd(b)
    decreases |b|
  {
    if b != [] && IsSpace(b[|b| - 1]) {
      assert (a + b)[..|a + b| - 1] == a + b[..|b| - 1];
      TrimEndKeepsPrefix(a, b[..|b| - 1]);
    } else if b == [] {
      assert a + b == a;
    }
  }

  /** Trim of a string that starts and ends (on its first segment) with non-space text. */
  lemma TrimKeepsPrefix(a: string, b: string)
    requires a != [] && !IsSpace(a[0]) && !IsSpace(a[|a| - 1])
    ensures Trim(a + b) == a + TrimEnd(b)
  {
    assert TrimStart(a + b) == a + b;
    TrimEndKeepsPrefix(a, b);
  }

  /** The number of occurrences of `d` in `s`. */
  function Count(s: string, d: char): nat {
    if s == [] then 0 else (if s[0] == d then 1 else 0) + Count(s[1..], d)
  }

  /** `pieces.join(d)`. */
  function Join(pieces: seq<string>, d: char): string {
    if |pieces| == 0 then []
    else if |pieces| == 1 then pieces[0]
    else pieces[0] + [d] + Join(pieces[1..], d)
  }

  lemma JoinCons(x: string, y: string, rest: seq<string>, d: char)
    ensures Join([x + y] + rest, d) == x + Join([y] + rest, d)
  {
    if rest != [] {
      assert ([x + y] + rest)[1..] == rest;
      assert ([y] + rest)[1..] == rest;
    }
  }

  /** `s.split(d)` for a one-character separator: the separators cut `s` into `Count + 1`
      pieces, none contains `d`, and joining them with `d` gives `s` back. */
  function Split(s: string, d: char): (r: seq<string>)
    ensures |r| == Count(s, d) + 1
    ensures forall i :: 0 <= i < |r| ==> d !in r[i]
    ensures Join(r, d) == s
    decreases |s|
  {
    if s == [] then [[]]
    else
      var t := Split(s[1..], d);
      if s[0] == d then
        assert ([[]] + t)[1..] == t;
        [[]] + t
      else
        JoinCons([s[0]], t[0], t[1..], d);
        assert [t[0]] + t[1..] == t;
        [[s[0]] + t[0]] + t[1..]
  }

  /** `pat` occurs in `s` at index `k`. */
  predicate StartsAt(s: string, k: int, pat: string) {
    0 <= k && k + |pat| <= |s| && s[k..k + |pat|] == pat
  }

  /** An occurrence inside a slice is an occurrence in the whole string, shifted. */
  lemma StartsAtSlice(s: string, lo: nat, hi: nat, k: nat, pat: string)
    requires lo <= hi <= |s|
    ensures StartsAt(s[lo..hi], k, pat) ==> StartsAt(s, lo + k, pat)
  {
    if StartsAt(s[lo..hi], k, pat) {
      var t := s[lo..hi];
      var u, v := t[k..k + |pat|], s[lo + k..lo + k + |pat|];
      assert forall m :: 0 <= m < |pat| ==> u[m] == v[m];
      assert u == v;
    }
  }

  /** A place whose occurrence would lie inside a slice holds one exactly when the slice holds
      one there. */
  lemma StartsAtWithin(s: string, lo: nat, hi: nat, k: nat, pat: string)
    requires lo <= k && k + |pat| <= hi <= |s|
    ensures StartsAt(s, k, pat) <==> StartsAt(s[lo..hi], k - lo, pat)
  {
    var t := s[lo..hi];
    var u, v := t[k - lo..k - lo + |pat|], s[k..k + |pat|];
    assert forall m :: 0 <= m < |pat| ==> u[m] == v[m];
    assert u == v;
  }

  /** The least index at or after `from` where `pat` occurs (the search behind `includes` and
      the fence match). */
  function IndexFrom(s: string, pat: string, from: nat): (r: Option<nat>)
    ensures r.Some? ==> from <= r.value && StartsAt(s, r.value, pat)
    ensures r.Some? ==> forall j :: from <= j < r.value ==> !StartsAt(s, j, pat)
    ensures r.None? ==> forall j :: from <= j ==> !StartsAt(s, j, pat)
    decreases |s| - from
  {
    if from + |pat| > |s| then None
    else if s[from..from + |pat|] == pat then Some(from)
    else IndexFrom(s, pat, from + 1)
  }

  /** The search from `from` stops at the first occurrence. */
  lemma {:induction false} IndexFromFirst(s: string, pat: string, from: nat, v: nat)
    requires from <= v && StartsAt(s, v, pat)
    requires forall j :: from <= j < v ==> !StartsAt(s, j, pat)
    ensures IndexFrom(s, pat, from) == Some(v)
    decreases v - from
  {
    if from < v {
      assert !StartsAt(s, from, pat);
      IndexFromFirst(s, pat, from + 1, v);
    }
  }

  /** `s.includes(pat)`. */
  predicate Includes(s: string, pat: string) {
    IndexFrom(s, pat, 0).Some?
  }

  /** `s.startsWith(p)`. */
  predicate StartsWith(s: string, p: string) {
    |p| <= |s| && s[..|p|] == p
  }

  /** `s.endsWith(e)`. */
  predicate EndsWith(s: string, e: string) {
    |e| <= |s| && s[|s| - |e|..] == e
  }

  /** `s.replace(pat, rep)` with a string pattern: only the first occurrence is replaced. */
  function ReplaceFirst(s: string, pat: string, rep: string): (r: string)
    ensures IndexFrom(s, pat, 0).None? ==> r == s
    ensures IndexFrom(s, pat, 0).Some? ==>
              var k := IndexFrom(s, pat, 0).value;
              r == s[..k] + rep + s[k + |pat|..]
  {
    match IndexFrom(s, pat, 0)
    case None => s
    case Some(k) => s[..k] + rep + s[k + |pat|..]
  }

  /** Removing a leading occurrence of `pat` by `ReplaceFirst` drops exactly that prefix. */
  lemma ReplaceFirstPrefix(s: string, pat: string)
    requires StartsWith(s, pat)
    ensures ReplaceFirst(s, pat, "") == s[|pat|..]
  {
    assert StartsAt(s, 0, pat);
  }

  /** The last position holding `c` (the greedy closer search and the last '/' of `dirname`). */
  function LastIndexOf(s: string, c: char): (r: Option<nat>)
    ensures r.Some? ==> r.value < |s| && s[r.value] == c
    ensures r.Some? ==> forall j :: r.value < j < |s| ==> s[j] != c
    ensures r.None? <==> c !in s
    decreases |s|
  {
    if s == [] then None
    else if s[|s| - 1] == c then Some(|s| - 1)
    else
      assert s == s[..|s| - 1] + [s[|s| - 1]];
      LastIndexOf(s[..|s| - 1], c)
  }

  /** ASCII upper case to lower case; every other character is kept. */
  function LowerChar(c: char): (r: char)
    ensures IsSpace(r) <==> IsSpace(c)
    ensures !('A' <= r <= 'Z')
  {
    if 'A' <= c <= 'Z' then (c as int + 32) as char else c
  }

  /** `s.toLowerCase()` on ASCII letters. */
  function Lower(s: string): (r: string)
    ensures |r| == |s|
    ensures forall i :: 0 <= i < |s| ==> r[i] == LowerChar(s[i])
  {
    seq(|s|, i requires 0 <= i < |s| => LowerChar(s[i]))
  }

  /** Splitting at a separator that is not in `x`. */
  lemma {:induction false} SplitAtFirst(x: string, y: string, d: char)
    requires d !in x
    ensures Split(x + [d] + y, d) == [x] + Split(y, d)
    decreases |x|
  {
    var s := x + [d] + y;
    if x == [] {
      assert s[1..] == y;
    } else {
      assert s[1..] == x[1..] + [d] + y;
      SplitAtFirst(x[1..], y, d);
      assert [x[0]] + x[1..] == x;
    }
  }

  lemma {:induction false} SplitWithoutSeparator(x: string, d: char)
    requires d !in x
    ensures Split(x, d) == [x]
    decreases |x|
  {
    if x != [] {
      SplitWithoutSeparator(x[1..], d);
      assert [x[0]] + x[1..] == x;
    }
  }

  /** `split` undoes `join` when no piece contains the separator. */
  lemma {:induction false} SplitJoin(pieces: seq<string>, d: char)
    requires |pieces| >= 1 && forall i :: 0 <= i < |pieces| ==> d !in pieces[i]
    ensures Split(Join(pieces, d), d) == pieces
    decreases |pieces|
  {
    if |pieces| == 1 {
      SplitWithoutSeparator(pieces[0], d);
    } else {
      SplitJoin(pieces[1..], d);
      SplitAtFirst(pieces[0], Join(pieces[1..], d), d);
      assert [pieces[0]] + pieces[1..] == pieces;
    }
  }
}
