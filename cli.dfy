/** The command-line driver of src/cli.ts: its own reply extractors, the reply normalisation,
    the dialogue built by `generateBranchCode`, the branch-name slug and the API-key file. */
module Cli {
  import opened Wrappers
  import opened Seqs
  import opened Text
  import opened Transcript
  import opened Parsers
  import Git
  import Config

  // ---------------------------------------------------------------------------------------
  // The greedy span of `extractJSONString`: /(\{[\s\S]*\}|\[[\s\S]*\])/
  // ---------------------------------------------------------------------------------------

  /** The closing character an opening bracket or brace needs. */
  function Closer(c: char): char {
    if c == '{' then '}' else ']'
  }

  /** The pattern can start matching at `p`: '{' with a '}' after it, or '[' with a ']'. */
  predicate OpensAt(s: string, p: int) {
    0 <= p < |s| && (s[p] == '{' || s[p] == '[') && Closer(s[p]) in s[p + 1..]
  }

  /** The leftmost position at or after `from` where a span opens. */
  function FirstOpen(s: string, from: nat): (r: Option<nat>)
    ensures r.Some? ==> from <= r.value && OpensAt(s, r.value)
    ensures r.Some? ==> forall p :: from <= p < r.value ==> !OpensAt(s, p)
    ensures r.None? ==> forall p :: from <= p ==> !OpensAt(s, p)
    decreases |s| - from
  {
    if from >= |s| then None
    else if OpensAt(s, from) then Some(from)
    else FirstOpen(s, from + 1)
  }

  /** The last occurrence of the closer of an opening position lies after it. */
  lemma CloserAfter(s: string, p: nat)
    requires OpensAt(s, p)
    ensures var q := LastIndexOf(s, Closer(s[p]));
            q.Some? && p < q.value && s[q.value] == Closer(s[p])
            && forall q' :: q.value < q' < |s| ==> s[q'] != Closer(s[p])
  {
    var c := Closer(s[p]);
    var k :| 0 <= k < |s[p + 1..]| && s[p + 1..][k] == c;
    assert s[p + 1 + k] == c;
  }

  /** The span from `p` to `q`: `p` is the leftmost opening position and `q` the last
      occurrence of its closer. */
  predicate GreedyBounds(text: string, p: int, q: int) {
    0 <= p < q < |text| && OpensAt(text, p) && (forall p' :: 0 <= p' < p ==> !OpensAt(text, p'))
    && text[q] == Closer(text[p]) && (forall q' :: q < q' < |text| ==> text[q'] != Closer(text[p]))
  }

  /** The bounds of the span the search finds. */
  lemma GreedyBoundsFound(text: string, p: nat)
    requires FirstOpen(text, 0) == Some(p)
    ensures OpensAt(text, p) && LastIndexOf(text, Closer(text[p])).Some?
    ensures GreedyBounds(text, p, LastIndexOf(text, Closer(text[p])).value)
  {
    CloserAfter(text, p);
  }

  /** `extractJSONString` of src/cli.ts: `None` exactly when no position opens a span;
      otherwise the span from the leftmost opening position to the last matching closer. */
  function GreedySpan(text: string): (r: Option<string>)
    ensures r.None? <==> forall p :: 0 <= p < |text| ==> !OpensAt(text, p)
    ensures r.Some? ==> exists p, q :: GreedyBounds(text, p, q) && r.value == text[p..q + 1]
    ensures r.Some? ==> |r.value| >= 2
  {
    match FirstOpen(text, 0)
    case None => None
    case Some(p) =>
      GreedyBoundsFound(text, p);
      var q := LastIndexOf(text, Closer(text[p])).value;
      Some(text[p..q + 1])
  }

  /** A payload delimited by a brace or bracket pair is captured whole, when no opening
      character comes before it and its closer does not occur after it. */
  lemma GreedyRoundTrip(prose: string, payload: string, rest: string)
    requires '{' !in prose && '[' !in prose
    requires |payload| >= 2 && (payload[0] == '{' || payload[0] == '[')
    requires payload[|payload| - 1] == Closer(payload[0]) && Closer(payload[0]) !in rest
    ensures GreedySpan(prose + payload + rest) == Some(payload)
  {
    var text := prose + payload + rest;
    var i := |prose|;
    var j := |prose| + |payload| - 1;
    var c := Closer(payload[0]);
    assert text[i] == payload[0] && text[j] == c;
    assert OpensAt(text, i) by {
      assert text[i + 1..][j - i - 1] == c;
    }
    forall p | 0 <= p < i ensures !OpensAt(text, p) {
      assert text[p] == prose[p];
    }
    assert FirstOpen(text, 0) == Some(i) by {
      FirstOpenSkips(text, 0, i);
    }
    assert LastIndexOf(text, c) == Some(j) by {
      forall q | j < q < |text| ensures text[q] != c {
        assert text[q] == rest[q - j - 1];
      }
    }
    assert text[i..j + 1] == payload;
  }

  /** Positions that cannot open a span are skipped. */
  lemma {:induction false} FirstOpenSkips(s: string, from: nat, upto: nat)
    requires from <= upto <= |s|
    requires forall p :: from <= p < upto ==> !OpensAt(s, p)
    ensures FirstOpen(s, from) == FirstOpen(s, upto)
    decreases upto - from
  {
    if from < upto {
      FirstOpenSkips(s, from + 1, upto);
    }
  }

  /** Two separate arrays are captured together, with the prose between them. */
  lemma GreedySpansBoth()
    ensures GreedySpan("x [1] y [2] z") == Some("[1] y [2]")
  {
    var prose, payload, rest := "x ", "[1] y [2]", " z";
    assert '{' !in prose && '[' !in prose;
    assert |payload| == 9 && payload[0] == '[' && payload[8] == ']';
    assert ']' !in rest;
    assert prose + payload + rest == "x [1] y [2] z";
    GreedyRoundTrip(prose, payload, rest);
  }

  /** `parseCodeSuggestions` of src/cli.ts. A falsy span gives null; a parsed value is then
      iterated, which throws for a plain object; an array is returned as it is. */
  function ParseReplySuggestions(text: string, parse: string -> Option<JsonValue>): (r: Outcome<Option<JsonValue>>)
    ensures GreedySpan(text).None? ==> r == Returned(None)
    ensures r.Threw? <==> GreedySpan(text).Some? && parse(GreedySpan(text).value).Some?
                           && parse(GreedySpan(text).value).value.JObject?
    ensures r.Returned? && r.value.Some? ==>
              r.value.value.JArray? && parse(GreedySpan(text).value) == r.value
    ensures (GreedySpan(text).Some? && parse(GreedySpan(text).value).Some?
             && parse(GreedySpan(text).value).value.JArray?) ==> r == Returned(parse(GreedySpan(text).value))
  {
    match GreedySpan(text)
    case None => Returned(None)
    case Some(jsonText) =>
      match SafelyParse(jsonText, parse)
      case None => Returned(None)
      case Some(v) => if v.JObject? then Threw else Returned(Some(v))
  }

  /** An array payload on its own in the reply is what comes back. */
  lemma ReplySuggestionsRoundTrip(prose: string, payload: string, rest: string,
                                  parse: string -> Option<JsonValue>, elements: seq<JsonValue>)
    requires '{' !in prose && '[' !in prose
    requires |payload| >= 2 && payload[0] == '[' && payload[|payload| - 1] == ']' && ']' !in rest
    requires parse(payload) == Some(JArray(elements))
    ensures ParseReplySuggestions(prose + payload + rest, parse) == Returned(Some(JArray(elements)))
  {
    GreedyRoundTrip(prose, payload, rest);
  }

  // ---------------------------------------------------------------------------------------
  // Reply normalisation: text.replace(/\\/g, '\\').replace(/^"|"$/g, '')
  // ---------------------------------------------------------------------------------------

  /** Every occurrence of the character `c` replaced by `rep` (a global one-character regex). */
  function ReplaceAll(s: string, c: char, rep: string): (r: string)
    ensures c !in s ==> r == s
    decreases |s|
  {
    if s == [] then []
    else (if s[0] == c then rep else [s[0]]) + ReplaceAll(s[1..], c, rep)
  }

  /** The backslash pass replaces each backslash by a single backslash: it changes nothing. */
  lemma {:induction false} BackslashPassIsIdentity(s: string)
    ensures ReplaceAll(s, '\\', "\\") == s
    decreases |s|
  {
    if s != [] {
      BackslashPassIsIdentity(s[1..]);
      assert [s[0]] + s[1..] == s;
    }
  }

  /** The global quote pass removes a '"' at the very start and one at the very end; a lone
      '"' is removed once. */
  function StripQuotes(s: string): (r: string)
    ensures var lo := if |s| > 0 && s[0] == '"' then 1 else 0;
            var hi := if |s| >= 2 && s[|s| - 1] == '"' then |s| - 1 else |s|;
            lo <= hi && r == s[lo..hi]
    ensures |s| > 0 && s[0] != '"' && s[|s| - 1] != '"' ==> r == s
  {
    var lead := |s| > 0 && s[0] == '"';
    var trail := |s| > 0 && s[|s| - 1] == '"' && !(lead && |s| == 1);
    var lo := if lead then 1 else 0;
    var hi := if trail then |s| - 1 else |s|;
    var r := s[lo..hi];
    assert s == s[..lo] + r + s[hi..];
    r
  }

  /** A quoted reply loses exactly its outer pair of quotes. */
  lemma StripQuotesWrapped(x: string)
    ensures StripQuotes("\"" + x + "\"") == x
  {
    var s := "\"" + x + "\"";
    assert s[1..|s| - 1] == x;
  }

  /** A leading quote is removed on its own. */
  lemma StripLeadingQuote(x: string)
    requires x == [] || x[|x| - 1] != '"'
    ensures StripQuotes("\"" + x) == x
  {
    var s := "\"" + x;
    assert s[1..] == x;
  }

  /** A trailing quote is removed on its own. */
  lemma StripTrailingQuote(x: string)
    requires x == [] || x[0] != '"'
    ensures StripQuotes(x + "\"") == x
  {
    var s := x + "\"";
    assert s[..|s| - 1] == x;
  }

  /** Only one quote is removed at each end. */
  lemma StripQuotesOnce(x: string)
    ensures StripQuotes("\"\"" + x + "\"\"") == "\"" + x + "\""
  {
    var s := "\"\"" + x + "\"\"";
    assert s[1..|s| - 1] == "\"" + x + "\"";
  }

  /** What `chatGptRequest` returns for a trimmed reply text. */
  function Normalize(text: string): (r: string)
    ensures r == StripQuotes(text)
  {
    BackslashPassIsIdentity(text);
    StripQuotes(ReplaceAll(text, '\\', "\\"))
  }

  // ---------------------------------------------------------------------------------------
  // The branch-name slug: `feature/${content.replace(/\s+/g, '-').toLowerCase()}`
  // ---------------------------------------------------------------------------------------

  /** Each maximal run of whitespace replaced by a single '-'. */
  function CollapseSpaces(s: string): (r: string)
    ensures NoSpace(r) && |r| <= |s|
    ensures s != [] && !IsSpace(s[0]) ==> r != [] && r[0] == s[0]
    ensures s != [] && IsSpace(s[0]) ==> r != [] && r[0] == '-'
    decreases |s|
  {
    if s == [] then []
    else if IsSpace(s[0]) then
      var t := TrimStart(s);
      var r := CollapseSpaces(t);
      assert t != [] ==> r[0] == t[0];
      "-" + r
    else [s[0]] + CollapseSpaces(s[1..])
  }

  /** Text without whitespace is left as it is. */
  lemma {:induction false} CollapseSpacesNoSpace(s: string)
    requires NoSpace(s)
    ensures CollapseSpaces(s) == s
    decreases |s|
  {
    if s != [] {
      assert !IsSpace(s[0]);
      CollapseSpacesNoSpace(s[1..]);
      assert [s[0]] + s[1..] == s;
    }
  }

  /** A leading non-space character is kept. */
  lemma CollapseSpacesCons(a: char, t: string)
    requires !IsSpace(a)
    ensures CollapseSpaces([a] + t) == [a] + CollapseSpaces(t)
  {
    assert ([a] + t)[1..] == t;
  }

  /** A leading whitespace run becomes one dash. */
  lemma CollapseSpacesLeadingRun(w: string, y: string)
    requires w != [] && AllSpace(w) && (y == [] || !IsSpace(y[0]))
    ensures CollapseSpaces(w + y) == "-" + CollapseSpaces(y)
  {
    assert IsSpace((w + y)[0]);
    TrimStartSpaces(w, y);
  }

  /** Text, a whitespace run, more text: the run becomes one dash. */
  lemma {:induction false} CollapseSpacesRun(x: string, w: string, y: string)
    requires NoSpace(x) && w != [] && AllSpace(w) && (y == [] || !IsSpace(y[0]))
    ensures CollapseSpaces(x + w + y) == x + "-" + CollapseSpaces(y)
    decreases |x|
  {
    if x == [] {
      assert x + w + y == w + y;
      CollapseSpacesLeadingRun(w, y);
    } else {
      var x1, c := x[1..], CollapseSpaces(y);
      assert x == [x[0]] + x1;
      ConsAssoc(x[0], x1, w, y);
      CollapseSpacesCons(x[0], x1 + w + y);
      CollapseSpacesRun(x1, w, y);
      ConsAssoc(x[0], x1, "-", c);
    }
  }

  /** Trimming the start removes exactly a whitespace prefix followed by a non-space. */
  lemma {:induction false} TrimStartSpaces(w: string, y: string)
    requires AllSpace(w) && (y == [] || !IsSpace(y[0]))
    ensures TrimStart(w + y) == y
    decreases |w|
  {
    if w == [] {
      assert w + y == y;
    } else {
      assert (w + y)[1..] == w[1..] + y;
      TrimStartSpaces(w[1..], y);
    }
  }

  /** The prefix of every suggested branch name. */
  const BranchPrefix: string := "feature/"

  /** A prefix without whitespace followed by text without whitespace. */
  lemma PrefixedNoSpace(p: string, s: string)
    requires NoSpace(p) && NoSpace(s)
    ensures NoSpace(p + s) && StartsWith(p + s, p)
    ensures forall i :: 0 <= i < |s| ==> (p + s)[|p| + i] == s[i]
  {
    assert (p + s)[..|p|] == p;
  }

  /** The suggested branch name. */
  function SuggestedBranchName(content: string): (r: string)
    ensures StartsWith(r, BranchPrefix) && NoSpace(r)
    ensures r[|BranchPrefix|..] == Lower(CollapseSpaces(content))
  {
    assert NoSpace(BranchPrefix);
    PrefixedSlug(BranchPrefix, CollapseSpaces(content));
    BranchPrefix + Lower(CollapseSpaces(content))
  }

  /** A prefix without whitespace followed by lowered text without whitespace. */
  lemma PrefixedSlug(p: string, c: string)
    requires NoSpace(p) && NoSpace(c)
    ensures var r := p + Lower(c);
            StartsWith(r, p) && NoSpace(r) && r[|p|..] == Lower(c)
  {
    LowerNoSpace(c);
    PrefixedNoSpace(p, Lower(c));
  }

  /** Lowering text without whitespace gives text without whitespace. */
  lemma LowerNoSpace(s: string)
    requires NoSpace(s)
    ensures NoSpace(Lower(s))
  {
    var r := Lower(s);
    forall i | 0 <= i < |r| ensures !IsSpace(r[i]) {
      assert r[i] == LowerChar(s[i]);
    }
  }


  // ---------------------------------------------------------------------------------------
  // The API-key file of src/cli.ts (`getApiKey`, `saveApiKey`)
  // ---------------------------------------------------------------------------------------

  /** A key saved as "OPENAI_KEY=<key>" and read back through `trim` and the first-occurrence
      `replace` is the key itself, when it has no trailing whitespace. */
  lemma SavedKeyRoundTrip(apiKey: string)
    requires apiKey == [] || !IsSpace(apiKey[|apiKey| - 1])
    ensures ReplaceFirst(Trim(Config.KeyField + apiKey), Config.KeyField, "") == apiKey
  {
    var f := Config.KeyField;
    TrimKeepsPrefix(f, apiKey);
    assert TrimEnd(apiKey) == apiKey;
    assert (f + apiKey)[..|f|] == f;
    ReplaceFirstPrefix(f + apiKey, f);
    assert (f + apiKey)[|f|..] == apiKey;
  }

  /** The file `~/.createthisbranch`; `None` means it cannot be read. */
  class KeyFile {
    var content: Option<string>

    constructor (initial: Option<string>)
      ensures content == initial
    {
      content := initial;
    }

    /** `saveApiKey` of src/cli.ts: the whole file becomes "OPENAI_KEY=<key>", with no newline. */
    method SaveApiKey(apiKey: string)
      modifies this
      ensures content == Some(Config.KeyField + apiKey)
    {
      content := Some(Config.KeyField + apiKey);
    }

    /** `getApiKey`: the trimmed file content, or else the first typed answer (saved); when that
        is empty, the second typed answer (saved); then the first "OPENAI_KEY=" removed. The
        answers are what `readLine` resolves with, so they are trimmed. */
    method GetApiKey(firstAnswer: string, secondAnswer: string) returns (apiKey: string)
      modifies this
      ensures var read := if old(content).Some? then Trim(old(content).value) else Trim(firstAnswer);
              var key := if read == "" then Trim(secondAnswer) else read;
              apiKey == ReplaceFirst(key, Config.KeyField, "")
              && content == if read == "" then Some(Config.KeyField + key)
                            else if old(content).Some? then old(content)
                            else Some(Config.KeyField + read)
    {
      var key: string;
      if content.Some? {
        key := Trim(content.value);
      } else {
        key := Trim(firstAnswer);
        SaveApiKey(key);
      }
      if key == "" {
        key := Trim(secondAnswer);
        SaveApiKey(key);
      }
      apiKey := ReplaceFirst(key, Config.KeyField, "");
    }
  }

  // ---------------------------------------------------------------------------------------
  // The listing filter of `getRepoFiles` in src/cli.ts
  // ---------------------------------------------------------------------------------------

  /** `files.split('\n').filter(file => file.endsWith('.js') || file.endsWith('.ts'))`. */
  function CliRepoFiles(listing: string): (r: seq<string>)
    ensures forall i :: 0 <= i < |r| ==> EndsWith(r[i], ".js") || EndsWith(r[i], ".ts")
    ensures forall line :: line in Split(listing, '\n') ==>
              (line in r <==> EndsWith(line, ".js") || EndsWith(line, ".ts"))
    ensures IsSubsequence(r, Split(listing, '\n'))
  {
    var endings := [".js", ".ts"];
    assert forall f :: Git.HasEnding(f, endings) <==> EndsWith(f, ".js") || EndsWith(f, ".ts") by {
      forall f ensures Git.HasEnding(f, endings) <==> EndsWith(f, ".js") || EndsWith(f, ".ts") {
        if EndsWith(f, ".js") { assert endings[0] == ".js"; }
        if EndsWith(f, ".ts") { assert endings[1] == ".ts"; }
      }
    }
    Git.RepoFiles(listing, endings)
  }

  // ---------------------------------------------------------------------------------------
  // The dialogue of `chatGptRequest` and `generateBranchCode`
  // ---------------------------------------------------------------------------------------

  /** One request on `history`: the prompt as a user message, then the trimmed reply of the
      service (`reply`, given everything sent so far) as an assistant message. The earlier
      entries stay where they were. */
  function Exchange(history: seq<Message>, prompt: string, reply: seq<Message> -> string): (r: seq<Message>)
    ensures |r| == |history| + 2
    ensures forall i :: 0 <= i < |history| ==> r[i] == history[i]
    ensures r[|history|] == Message(User, prompt) && r[..|history| + 1] == history + [Message(User, prompt)]
    ensures r[|history| + 1] == Message(Assistant, Trim(reply(r[..|history| + 1])))
  {
    var asked := history + [Message(User, prompt)];
    var r := asked + [Message(Assistant, Trim(reply(asked)))];
    SnocElements(history, Message(User, prompt));
    SnocElements(asked, Message(Assistant, Trim(reply(asked))));
    PrefixOfPrefix(r, asked, |asked|);
    r
  }

  /** The history after the prompts are sent one request at a time, in order. */
  function Dialogue(history: seq<Message>, prompts: seq<string>, reply: seq<Message> -> string): seq<Message>
    decreases |prompts|
  {
    if prompts == [] then history
    else Exchange(Dialogue(history, prompts[..|prompts| - 1], reply), prompts[|prompts| - 1], reply)
  }

  /** Each prompt adds exactly two entries and leaves the earlier ones untouched. */
  lemma {:induction false} DialogueLength(history: seq<Message>, prompts: seq<string>, reply: seq<Message> -> string)
    ensures var r := Dialogue(history, prompts, reply);
            |r| == |history| + 2 * |prompts| && forall i :: 0 <= i < |history| ==> r[i] == history[i]
    decreases |prompts|
  {
    if prompts != [] {
      DialogueLength(history, prompts[..|prompts| - 1], reply);
    }
  }

  /** The last prompt is the user message before the last entry, and the last entry is the
      trimmed reply to everything before it. */
  lemma DialogueAtLast(history: seq<Message>, prompts: seq<string>, reply: seq<Message> -> string, k: nat)
    requires k + 1 == |prompts|
    ensures var r := Dialogue(history, prompts, reply);
            |history| + 2 * k + 1 < |r|
            && r[|history| + 2 * k] == Message(User, prompts[k])
            && r[|history| + 2 * k + 1] == Message(Assistant, Trim(reply(r[..|history| + 2 * k + 1])))
  {
    DialogueLength(history, prompts[..k], reply);
  }

  /** An earlier request reads the same on the history after one more prompt. */
  lemma DialogueAtEarlier(history: seq<Message>, prompts: seq<string>, reply: seq<Message> -> string, k: nat)
    requires k + 1 < |prompts|
    ensures var r := Dialogue(history, prompts, reply);
            var prev := Dialogue(history, prompts[..|prompts| - 1], reply);
            |history| + 2 * k + 1 < |prev| <= |r|
            && r[|history| + 2 * k] == prev[|history| + 2 * k]
            && r[|history| + 2 * k + 1] == prev[|history| + 2 * k + 1]
            && r[..|history| + 2 * k + 1] == prev[..|history| + 2 * k + 1]
  {
    var prev := Dialogue(history, prompts[..|prompts| - 1], reply);
    DialogueLength(history, prompts[..|prompts| - 1], reply);
    PrefixOfPrefix(Dialogue(history, prompts, reply), prev, |history| + 2 * k + 1);
  }

  /** Prompt `k` is the user message at offset 2k, and the trimmed reply to everything sent up
      to it follows it. */
  lemma {:induction false} DialogueAt(history: seq<Message>, prompts: seq<string>, reply: seq<Message> -> string, k: nat)
    requires k < |prompts|
    ensures var r := Dialogue(history, prompts, reply);
            |history| + 2 * k + 1 < |r|
            && r[|history| + 2 * k] == Message(User, prompts[k])
            && r[|history| + 2 * k + 1] == Message(Assistant, Trim(reply(r[..|history| + 2 * k + 1])))
    decreases |prompts|
  {
    if k + 1 == |prompts| {
      DialogueAtLast(history, prompts, reply, k);
    } else {
      var init := prompts[..|prompts| - 1];
      DialogueAt(history, init, reply, k);
      assert init[k] == prompts[k];
      DialogueAtEarlier(history, prompts, reply, k);
    }
  }

  /** The user message of prompt `k` alone, at position `j`. */
  lemma {:induction false} DialogueUserAt(history: seq<Message>, prompts: seq<string>, reply: seq<Message> -> string,
                                          k: nat, j: nat)
    requires k < |prompts| && j == |history| + 2 * k
    ensures var r := Dialogue(history, prompts, reply);
            j + 1 < |r| && r[j] == Message(User, prompts[k])
    decreases |prompts|
  {
    var init := prompts[..|prompts| - 1];
    DialogueLength(history, init, reply);
    if k + 1 < |prompts| {
      DialogueUserAt(history, init, reply, k, j);
      assert init[k] == prompts[k];
    }
  }

  /** The entries before the first request are the initial history. */
  lemma DialogueKeepsStart(history: seq<Message>, prompts: seq<string>, reply: seq<Message> -> string, i: nat)
    requires i < |history|
    ensures var r := Dialogue(history, prompts, reply);
            i < |r| && r[i] == history[i]
  {
    DialogueLength(history, prompts, reply);
  }

  // The fixed wording of the prompts is written as short labels; what is interpolated into
  // them, and in which order, is as in the source.

  /** The system message of the dialogue. */
  const SystemPrompt: string := "[assistant role]"

  /** The text put before the special instructions. */
  const SpecialPrefix: string := "[special] "

  /** The history before the first request: the system message, then the special instructions
      when there are any. */
  function Preamble(specialInstructions: string): seq<Message> {
    [Message(System, SystemPrompt)]
    + if specialInstructions != "" then [Message(User, SpecialPrefix + specialInstructions)] else []
  }

  /** One "- <path>" line per repository file. */
  function FileList(files: seq<string>): string {
    Join(seq(|files|, i requires 0 <= i < |files| => "- " + files[i]), '\n')
  }

  /** The request for the list of pertinent files: the feature, then the file list. */
  function InitialPrompt(content: string, files: seq<string>): string {
    "[feature] \"" + content + "\" [files]\n\n" + FileList(files) + "\n\n[list]\n"
  }

  /** The announcement of the file transmissions. */
  const SendingFilesPrompt: string := "[sending files]"

  /** The transmission of one file; a missing content is rendered as "undefined". */
  function FilePrompt(name: string, content: Option<string>): string {
    var shown := match content case Some(c) => c case None => "undefined";
    "[file] " + name + "\n[content]\n" + shown + "\n[end]"
  }

  /** The final request for the code suggestions: the feature, then the languages. */
  function CodeSuggestionsPrompt(content: string, languages: string): string {
    "[suggest] " + content + "\n[languages] " + languages + "\n[json format]"
  }

  /** The `{ path, content }` records read before the dialogue (`read` is the file system). */
  function Snapshot(files: seq<string>, read: string -> string): seq<(string, string)> {
    seq(|files|, i requires 0 <= i < |files| => (files[i], read(files[i])))
  }

  /** `fileContents.find(({ path }) => path === name)?.content`: the content of the first record
      with that path. */
  function Lookup(snapshot: seq<(string, string)>, name: string): (r: Option<string>)
    ensures r.None? <==> forall i :: 0 <= i < |snapshot| ==> snapshot[i].0 != name
    ensures r.Some? ==> exists i :: 0 <= i < |snapshot| && snapshot[i].0 == name && snapshot[i].1 == r.value
                                    && forall j :: 0 <= j < i ==> snapshot[j].0 != name
    decreases |snapshot|
  {
    if snapshot == [] then None
    else if snapshot[0].0 == name then Some(snapshot[0].1)
    else
      var r := Lookup(snapshot[1..], name);
      assert forall i :: 1 <= i < |snapshot| ==> snapshot[i] == snapshot[1..][i - 1];
      r
  }

  /** A requested file is found exactly when it is a repository file, and then its content is
      what was read for it. */
  lemma SnapshotLookup(files: seq<string>, read: string -> string, name: string)
    ensures Lookup(Snapshot(files, read), name) == if name in files then Some(read(name)) else None
  {
    var snapshot := Snapshot(files, read);
    if name in files {
      var k :| 0 <= k < |files| && files[k] == name;
      assert snapshot[k].0 == name;
    } else {
      assert forall i :: 0 <= i < |snapshot| ==> snapshot[i].0 != name;
    }
  }

  /** The requested files other than src/cli.ts, in reply order. */
  function WithoutCli(requested: seq<string>): (r: seq<string>)
    ensures forall i :: 0 <= i < |r| ==> r[i] != "src/cli.ts"
    ensures forall f :: f in requested && f != "src/cli.ts" ==> f in r
    ensures IsSubsequence(r, requested)
  {
    Filter(requested, f => f != "src/cli.ts")
  }

  /** Every requested file other than the CLI itself is sent as many times as it was requested. */
  lemma WithoutCliKeepsRepeats(requested: seq<string>, f: string)
    ensures multiset(WithoutCli(requested))[f] == if f == "src/cli.ts" then 0 else multiset(requested)[f]
  {
    FilterMultiplicity(requested, f => f != "src/cli.ts", f);
  }

  /** The file transmissions, one per file to send. */
  function FilePrompts(toSend: seq<string>, snapshot: seq<(string, string)>): seq<string> {
    seq(|toSend|, i requires 0 <= i < |toSend| => FilePrompt(toSend[i], Lookup(snapshot, toSend[i])))
  }

  /** The history of a chat with the service. */
  class Chat {
    var history: seq<Message>

    constructor ()
      ensures history == []
    {
      history := [];
    }

    method Push(m: Message)
      modifies this
      ensures history == old(history) + [m]
    {
      history := history + [m];
    }

    /** `chatGptRequest`: send the prompt, record the trimmed reply, and return it normalised. */
    method Request(prompt: string, reply: seq<Message> -> string) returns (text: string)
      modifies this
      ensures history == Exchange(old(history), prompt, reply)
      ensures text == StripQuotes(history[|history| - 1].content)
    {
      Push(Message(User, prompt));
      var answer := Trim(reply(history));
      Push(Message(Assistant, answer));
      text := Normalize(answer);
    }
  }

  /** The prompts of `generateBranchCode`, given the files it transmits. */
  function BranchPrompts(content: string, languages: string, files: seq<string>, toSend: seq<string>,
                         snapshot: seq<(string, string)>): seq<string> {
    [InitialPrompt(content, files), SendingFilesPrompt] + FilePrompts(toSend, snapshot)
    + [CodeSuggestionsPrompt(content, languages)]
  }

  /** The files transmitted: those named in the (normalised) answer to the first request. */
  function FilesToSend(specialInstructions: string, content: string, files: seq<string>,
                       reply: seq<Message> -> string): seq<string> {
    var asked := Preamble(specialInstructions) + [Message(User, InitialPrompt(content, files))];
    WithoutCli(ExtractRequestedFiles(StripQuotes(Trim(reply(asked)))))
  }

  /** The prompts in order: the file request, the announcement, one transmission per file, and
      the request for the suggestions. */
  lemma BranchPromptsAt(content: string, languages: string, files: seq<string>, toSend: seq<string>,
                        snapshot: seq<(string, string)>)
    ensures var prompts := BranchPrompts(content, languages, files, toSend, snapshot);
            |prompts| == 3 + |toSend| && prompts[0] == InitialPrompt(content, files)
            && prompts[1] == SendingFilesPrompt
            && prompts[2 + |toSend|] == CodeSuggestionsPrompt(content, languages)
            && forall k :: 0 <= k < |toSend| ==> prompts[2 + k] == FilePrompt(toSend[k], Lookup(snapshot, toSend[k]))
  {
  }

  /** The special-instructions message is never the file request. */
  lemma SpecialIsNotInitial(specialInstructions: string, content: string, files: seq<string>)
    ensures SpecialPrefix + specialInstructions != InitialPrompt(content, files)
  {
    assert (SpecialPrefix + specialInstructions)[1] == 's';
    assert InitialPrompt(content, files)[1] == 'f';
  }

  /** The requests of `generateBranchCode` on a history `base`: 3 + k requests for k
      transmitted files, the file request first, the announcement second and the request for
      the code suggestions last. */
  lemma BranchDialogueRequests(base: seq<Message>, content: string, languages: string,
                               files: seq<string>, toSend: seq<string>, snapshot: seq<(string, string)>,
                               reply: seq<Message> -> string)
    ensures var h := Dialogue(base, BranchPrompts(content, languages, files, toSend, snapshot), reply);
            |h| == |base| + 2 * (3 + |toSend|)
            && h[|base|] == Message(User, InitialPrompt(content, files))
            && h[|base| + 2] == Message(User, SendingFilesPrompt)
            && h[|h| - 2] == Message(User, CodeSuggestionsPrompt(content, languages))
  {
    var prompts := BranchPrompts(content, languages, files, toSend, snapshot);
    BranchPromptsAt(content, languages, files, toSend, snapshot);
    DialogueLength(base, prompts, reply);
    var h := Dialogue(base, prompts, reply);
    DialogueUserAt(base, prompts, reply, 0, |base|);
    DialogueUserAt(base, prompts, reply, 1, |base| + 2);
    DialogueUserAt(base, prompts, reply, 2 + |toSend|, |h| - 2);
  }

  /** The dialogue of `generateBranchCode` opens with the system message, and its second entry
      is the special-instructions message exactly when there are special instructions. */
  lemma BranchDialogueHead(specialInstructions: string, content: string, languages: string,
                           files: seq<string>, toSend: seq<string>, snapshot: seq<(string, string)>,
                           reply: seq<Message> -> string)
    ensures var h := Dialogue(Preamble(specialInstructions), BranchPrompts(content, languages, files, toSend, snapshot), reply);
            1 < |h| && h[0] == Message(System, SystemPrompt)
            && (h[1] == Message(User, SpecialPrefix + specialInstructions) <==> specialInstructions != "")
  {
    var base := Preamble(specialInstructions);
    var prompts := BranchPrompts(content, languages, files, toSend, snapshot);
    BranchDialogueRequests(base, content, languages, files, toSend, snapshot, reply);
    DialogueKeepsStart(base, prompts, reply, 0);
    if specialInstructions != "" {
      DialogueKeepsStart(base, prompts, reply, 1);
    } else {
      SpecialIsNotInitial(specialInstructions, content, files);
    }
  }

  /** The prompt sent for the k-th transmitted file. */
  lemma BranchPromptFile(content: string, languages: string, files: seq<string>, toSend: seq<string>,
                         snapshot: seq<(string, string)>, k: nat)
    requires k < |toSend|
    ensures var prompts := BranchPrompts(content, languages, files, toSend, snapshot);
            2 + k < |prompts| && prompts[2 + k] == FilePrompt(toSend[k], Lookup(snapshot, toSend[k]))
  {
    var fps := FilePrompts(toSend, snapshot);
    assert fps[k] == FilePrompt(toSend[k], Lookup(snapshot, toSend[k]));
    var prompts := BranchPrompts(content, languages, files, toSend, snapshot);
    assert prompts == [InitialPrompt(content, files), SendingFilesPrompt] + fps + [CodeSuggestionsPrompt(content, languages)];
    assert prompts[2 + k] == fps[k];
  }

  /** The prompt for the k-th transmitted file carries what was read for it, or nothing when it
      is not a repository file. */
  lemma BranchPromptFileRead(content: string, languages: string, files: seq<string>, read: string -> string,
                             toSend: seq<string>, k: nat)
    requires k < |toSend|
    ensures var prompts := BranchPrompts(content, languages, files, toSend, Snapshot(files, read));
            2 + k < |prompts|
            && prompts[2 + k] == FilePrompt(toSend[k], if toSend[k] in files then Some(read(toSend[k])) else None)
  {
    BranchPromptFile(content, languages, files, toSend, Snapshot(files, read), k);
    SnapshotLookup(files, read, toSend[k]);
  }

  /** Each transmitted file is sent, in order, with what the snapshot holds for it (see
      `SnapshotLookup` for what that is): the k-th one is the user message at `j`. */
  lemma BranchDialogueFiles(base: seq<Message>, content: string, languages: string,
                            files: seq<string>, snapshot: seq<(string, string)>, toSend: seq<string>,
                            reply: seq<Message> -> string, k: nat, j: nat)
    requires k < |toSend| && j == |base| + 4 + 2 * k
    ensures var h := Dialogue(base, BranchPrompts(content, languages, files, toSend, snapshot), reply);
            j < |h| && h[j] == Message(User, FilePrompt(toSend[k], Lookup(snapshot, toSend[k])))
  {
    var prompts := BranchPrompts(content, languages, files, toSend, snapshot);
    var m := 2 + k;
    BranchPromptFile(content, languages, files, toSend, snapshot, k);
    assert prompts[m] == FilePrompt(toSend[k], Lookup(snapshot, toSend[k]));
    DialogueUserAt(base, prompts, reply, m, j);
  }

  /** Sending one more prompt is one more request. */
  lemma DialogueStep(history: seq<Message>, prompts: seq<string>, prompt: string, reply: seq<Message> -> string)
    ensures Dialogue(history, prompts + [prompt], reply) == Exchange(Dialogue(history, prompts, reply), prompt, reply)
  {
    SnocElements(prompts, prompt);
  }

  /** Sending two batches of prompts is sending them one after the other. */
  lemma {:induction false} DialogueAppend(history: seq<Message>, a: seq<string>, b: seq<string>, reply: seq<Message> -> string)
    ensures Dialogue(history, a + b, reply) == Dialogue(Dialogue(history, a, reply), b, reply)
    decreases |b|
  {
    if b == [] {
      assert a + b == a;
    } else {
      var init := b[..|b| - 1];
      DialogueAppend(history, a, init, reply);
      SnocSplit(a, b);
      DialogueStep(history, a + init, b[|b| - 1], reply);
    }
  }

  /** The loop of `generateBranchCode` that transmits the requested files, one request each. */
  method SendFiles(chat: Chat, toSend: seq<string>, fileContents: seq<(string, string)>, reply: seq<Message> -> string)
    modifies chat
    ensures chat.history == Dialogue(old(chat.history), FilePrompts(toSend, fileContents), reply)
  {
    ghost var start := chat.history;
    ghost var filePrompts := FilePrompts(toSend, fileContents);
    assert |filePrompts| == |toSend|;
    assert filePrompts[..0] == [];
    for i := 0 to |toSend|
      invariant chat.history == Dialogue(start, filePrompts[..i], reply)
    {
      var fileContent := Lookup(fileContents, toSend[i]);
      var ok := chat.Request(FilePrompt(toSend[i], fileContent), reply);
      DialogueStep(start, filePrompts[..i], filePrompts[i], reply);
      TakeSnoc(filePrompts, i);
    }
    TakeAll(filePrompts);
  }

  /** Sending a single prompt is one request. */
  lemma DialogueOne(history: seq<Message>, prompt: string, reply: seq<Message> -> string)
    ensures Dialogue(history, [prompt], reply) == Exchange(history, prompt, reply)
  {
    assert [prompt][..0] == [];
  }

  /** The four stages of `generateBranchCode` (two requests, the transmissions, one more
      request) make up one dialogue. */
  lemma BranchHistory(base: seq<Message>, first: string, second: string, filePrompts: seq<string>,
                      last: string, reply: seq<Message> -> string)
    ensures Exchange(Dialogue(Exchange(Exchange(base, first, reply), second, reply), filePrompts, reply), last, reply)
            == Dialogue(base, [first, second] + filePrompts + [last], reply)
  {
    var opening := Exchange(Exchange(base, first, reply), second, reply);
    assert opening == Dialogue(base, [first, second], reply) by {
      DialogueOne(base, first, reply);
      PairConcat(first, second);
      DialogueStep(base, [first], second, reply);
    }
    DialogueAppend(base, [first, second], filePrompts, reply);
    DialogueStep(base, [first, second] + filePrompts, last, reply);
  }

  /** A chat holding the system message and the special instructions, if any. */
  method OpenChat(specialInstructions: string) returns (chat: Chat)
    ensures fresh(chat) && chat.history == Preamble(specialInstructions)
  {
    chat := new Chat();
    chat.Push(Message(System, SystemPrompt));
    if specialInstructions != "" {
      chat.Push(Message(User, SpecialPrefix + specialInstructions));
    }
  }

  /** `generateBranchCode`: the whole dialogue with the service and the parsed answer to its
      last request. `read` gives the content read for each repository file, `reply` the
      service's answer to a history, `parse` stands for `JSON.parse`. */
  method GenerateBranchCode(files: seq<string>, read: string -> string, content: string, languages: string,
                            specialInstructions: string, reply: seq<Message> -> string,
                            parse: string -> Option<JsonValue>)
    returns (suggestions: Outcome<Option<JsonValue>>, history: seq<Message>)
    ensures var toSend := FilesToSend(specialInstructions, content, files, reply);
            history == Dialogue(Preamble(specialInstructions),
                                BranchPrompts(content, languages, files, toSend, Snapshot(files, read)), reply)
    ensures history != [] && suggestions == ParseReplySuggestions(StripQuotes(history[|history| - 1].content), parse)
  {
    var fileContents := Snapshot(files, read);
    var chat := OpenChat(specialInstructions);
    ghost var base := chat.history;
    var initialPrompt := InitialPrompt(content, files);
    var fileRequest := chat.Request(initialPrompt, reply);
    var requestedFiles := ExtractRequestedFiles(fileRequest);
    var acknowledged := chat.Request(SendingFilesPrompt, reply);
    var toSend := WithoutCli(requestedFiles);
    assert toSend == FilesToSend(specialInstructions, content, files, reply);
    SendFiles(chat, toSend, fileContents, reply);
    var codeSuggestionsPrompt := CodeSuggestionsPrompt(content, languages);
    var codeSuggestionsText := chat.Request(codeSuggestionsPrompt, reply);
    suggestions := ParseReplySuggestions(codeSuggestionsText, parse);
    history := chat.history;
    BranchHistory(base, initialPrompt, SendingFilesPrompt, FilePrompts(toSend, fileContents), codeSuggestionsPrompt, reply);
  }
}
