/** The configuration file of src/config.ts: `KEY=value` lines, looked up by the first line with
    the key's prefix, and rewritten by prepending a new line. */
module Config {
  import opened Wrappers
  import opened Text
  import opened Seqs

  const KeyField: string := "OPENAI_KEY="
  const LimitField: string := "TOKEN_LIMIT="

  /** Index of the first line that starts with `key` (the `find` of `getConfigs`). */
  function FindLine(lines: seq<string>, key: string): (r: Option<nat>)
    ensures r.Some? ==> r.value < |lines| && StartsWith(lines[r.value], key)
    ensures r.Some? ==> forall j :: 0 <= j < r.value ==> !StartsWith(lines[j], key)
    ensures r.None? ==> forall j :: 0 <= j < |lines| ==> !StartsWith(lines[j], key)
    decreases |lines|
  {
    if lines == [] then None
    else if StartsWith(lines[0], key) then Some(0)
    else match FindLine(lines[1..], key)
      case None => None
      case Some(i) => Some(i + 1)
  }

  /** The lines of the file as `getConfigs` sees them: trimmed, then split at newlines. */
  function Lines(content: string): seq<string> {
    Split(Trim(content), '\n')
  }

  /** `lines.find(line => line.startsWith(key))?.replace(key, '')`: the first line with the
      key, without the key; `None` is `undefined`. */
  function FindValue(lines: seq<string>, key: string): (r: Option<string>)
    ensures r.None? <==> forall j :: 0 <= j < |lines| ==> !StartsWith(lines[j], key)
    ensures r.Some? ==> exists i :: 0 <= i < |lines| && StartsWith(lines[i], key)
                          && (forall j :: 0 <= j < i ==> !StartsWith(lines[j], key))
                          && r.value == lines[i][|key|..]
  {
    match FindLine(lines, key)
    case None => None
    case Some(i) =>
      ReplaceFirstPrefix(lines[i], key);
      Some(ReplaceFirst(lines[i], key, ""))
  }

  /** The value stored under `key` in the file content. */
  function LookupValue(content: string, key: string): Option<string> {
    FindValue(Lines(content), key)
  }

  /** The stored API key. */
  function ApiKeyOf(content: string): Option<string> {
    LookupValue(content, KeyField)
  }

  /** The stored token limit, through `Number(...)` (here `toNumber`; `None` is NaN, which is also
      what `Number(undefined)` gives when the line is missing). */
  function StoredTokenLimit(content: string, toNumber: string -> Option<int>): Option<int> {
    match LookupValue(content, LimitField)
    case None => None
    case Some(v) => toNumber(v)
  }

  /** The stored token limit of a file that may not be readable (`None` then). */
  function StoredIn(content: Option<string>, toNumber: string -> Option<int>): Option<int> {
    match content
    case None => None
    case Some(c) => StoredTokenLimit(c, toNumber)
  }

  /** The two subscription tiers. */
  predicate IsSupportedLimit(n: int) {
    n == 2048 || n == 4096
  }

  /** The fallback when no valid limit is stored: 4096 exactly for the answer "yes". The answer is
      the value the prompt resolves to, so an empty reply arrives here as its default "yes". */
  function FallbackTokenLimit(answer: string): (r: int)
    ensures IsSupportedLimit(r)
    ensures r == 4096 <==> answer == "yes"
  {
    if answer == "yes" then 4096 else 2048
  }

  /** The limit `getConfigs` settles on: a stored supported tier, or else the fallback. */
  function ResolveTokenLimit(stored: Option<int>, answer: string): (r: int)
    ensures IsSupportedLimit(r)
    ensures stored.Some? && IsSupportedLimit(stored.value) ==> r == stored.value
    ensures !(stored.Some? && IsSupportedLimit(stored.value)) ==> r == FallbackTokenLimit(answer)
  {
    if stored.Some? && IsSupportedLimit(stored.value) then stored.value else FallbackTokenLimit(answer)
  }

  /** The content of the file rewritten by a save: the new line, then what could be read before
      (nothing when the file could not be read). */
  function Prepended(field: string, value: string, previous: Option<string>): string {
    var rest := match previous case Some(c) => c case None => "";
    field + value + "\n" + rest
  }

  /** The number a string of decimal digits stands for, most significant digit first. */
  function DigitsValue(s: string): int
    decreases |s|
  {
    if s == [] then 0 else DigitsValue(s[..|s| - 1]) * 10 + (s[|s| - 1] as int - '0' as int)
  }

  /** Decimal digits of a natural number (`${tokenLimit}`): digits only, no leading zero, and
      standing for `n`. */
  function Decimal(n: nat): (r: string)
    ensures r != [] && forall i :: 0 <= i < |r| ==> '0' <= r[i] <= '9'
    ensures r[0] == '0' ==> r == "0"
    ensures DigitsValue(r) == n
    decreases n
  {
    if n < 10 then
      var r := [('0' as int + n) as char];
      assert r[..0] == [];
      r
    else
      var p := Decimal(n / 10);
      var r := p + [('0' as int + n % 10) as char];
      assert r[..|r| - 1] == p;
      r
  }

  /** The two tiers are saved as "2048" and "4096". */
  lemma DecimalTiers()
    ensures Decimal(2048) == "2048" && Decimal(4096) == "4096"
  {
    assert Decimal(2) == "2" && Decimal(4) == "4";
    assert Decimal(20) == "20" && Decimal(40) == "40";
    assert Decimal(204) == "204" && Decimal(409) == "409";
  }

  /** Whatever follows a line after a newline, splitting at newlines gives that line first. */
  lemma FirstOfSplit(line: string, tail: string)
    requires '\n' !in line && (tail == [] || tail[0] == '\n')
    ensures Split(line + tail, '\n')[0] == line
  {
    if tail == [] {
      AppendEmpty(line);
      SplitWithoutSeparator(line, '\n');
    } else {
      ConsSplit(line, tail);
      SplitAtFirst(line, tail[1..], '\n');
    }
  }

  /** A line with no newline and non-space ends stays the first line after trimming. */
  lemma TrimmedFirstLine(line: string, rest: string)
    requires line != [] && !IsSpace(line[0]) && !IsSpace(line[|line| - 1]) && '\n' !in line
    ensures Split(Trim(line + ("\n" + rest)), '\n')[0] == line
  {
    var x := "\n" + rest;
    TrimKeepsPrefix(line, x);
    var tail := TrimEnd(x);
    assert tail == [] || tail[0] == '\n';
    FirstOfSplit(line, tail);
  }

  /** When the first line of the trimmed content carries the key, its value is found. */
  lemma LookupFirstLine(content: string, key: string, line: string)
    requires Lines(content)[0] == line && StartsWith(line, key)
    ensures LookupValue(content, key) == Some(line[|key|..])
  {
    assert FindLine(Lines(content), key) == Some(0);
    ReplaceFirstPrefix(line, key);
  }

  /** A value saved by prepending is found again, whatever older lines remain below it, as long
      as it has no newline and no trailing whitespace. */
  lemma PrependedLookup(field: string, value: string, previous: Option<string>)
    requires field != [] && !IsSpace(field[0]) && !IsSpace(field[|field| - 1])
    requires '\n' !in field + value
    requires value == [] || !IsSpace(value[|value| - 1])
    ensures LookupValue(Prepended(field, value, previous), field) == Some(value)
  {
    var line := field + value;
    var rest := match previous case Some(c) => c case None => "";
    assert Prepended(field, value, previous) == line + ("\n" + rest);
    assert line[|line| - 1] == if value == [] then field[|field| - 1] else value[|value| - 1];
    TrimmedFirstLine(line, rest);
    assert line[..|field|] == field && line[|field|..] == value;
    LookupFirstLine(Prepended(field, value, previous), field, line);
  }

  /** `saveApiKey` followed by the key lookup of `getConfigs` gives the key back. */
  lemma ApiKeyRoundTrip(apiKey: string, previous: Option<string>)
    requires '\n' !in apiKey
    requires apiKey == [] || !IsSpace(apiKey[|apiKey| - 1])
    ensures ApiKeyOf(Prepended(KeyField, apiKey, previous)) == Some(apiKey)
  {
    assert '\n' !in KeyField;
    PrependedLookup(KeyField, apiKey, previous);
  }

  /** `saveTokenLimit` followed by the limit lookup of `getConfigs` gives the limit back, when
      `Number` reads decimal digits as themselves. */
  lemma TokenLimitRoundTrip(limit: nat, previous: Option<string>, toNumber: string -> Option<int>)
    requires toNumber(Decimal(limit)) == Some(limit)
    ensures StoredTokenLimit(Prepended(LimitField, Decimal(limit), previous), toNumber) == Some(limit)
  {
    var d := Decimal(limit);
    assert '\n' !in LimitField;
    assert '\n' !in d;
    PrependedLookup(LimitField, d, previous);
  }

  /** The file `~/.branchcraft`; `None` means it cannot be read. */
  class ConfigFile {
    var content: Option<string>

    constructor (initial: Option<string>)
      ensures content == initial
    {
      content := initial;
    }

    /** `saveApiKey`: prepend "OPENAI_KEY=<key>" as a new first line. */
    method SaveApiKey(apiKey: string)
      modifies this
      ensures content == Some(Prepended(KeyField, apiKey, old(content)))
    {
      content := Some(Prepended(KeyField, apiKey, content));
    }

    /** `saveTokenLimit`: prepend "TOKEN_LIMIT=<limit>" as a new first line. */
    method SaveTokenLimit(tokenLimit: nat)
      modifies this
      ensures content == Some(Prepended(LimitField, Decimal(tokenLimit), old(content)))
    {
      content := Some(Prepended(LimitField, Decimal(tokenLimit), content));
    }

    /** The first `try` of `getConfigs`: the key from the file, or else the key the user types
        (`typedKey`, trimmed as `readLine` does), which is then saved. */
    method ReadApiKey(typedKey: string) returns (apiKey: Option<string>)
      modifies this
      ensures old(content).Some? ==> apiKey == ApiKeyOf(old(content).value) && content == old(content)
      ensures old(content).None? ==>
                apiKey == Some(Trim(typedKey)) && content == Some(Prepended(KeyField, Trim(typedKey), None))
    {
      if content.Some? {
        apiKey := ApiKeyOf(content.value);
      } else {
        var typed := Trim(typedKey);
        apiKey := Some(typed);
        SaveApiKey(typed);
      }
    }

    /** The second `try` of `getConfigs`: a stored supported limit is kept; otherwise (no file,
        no line, not a number or not a tier) the limit chosen by `answer` is saved. */
    method ReadTokenLimit(answer: string, toNumber: string -> Option<int>) returns (tokenLimit: int)
      modifies this
      ensures IsSupportedLimit(tokenLimit)
      ensures var stored := StoredIn(old(content), toNumber);
              tokenLimit == ResolveTokenLimit(stored, answer)
              && content == if stored.Some? && IsSupportedLimit(stored.value) then old(content)
                            else Some(Prepended(LimitField, Decimal(tokenLimit), old(content)))
    {
      var stored := StoredIn(content, toNumber);
      if stored.Some? && IsSupportedLimit(stored.value) {
        tokenLimit := stored.value;
      } else {
        tokenLimit := FallbackTokenLimit(answer);
        SaveTokenLimit(tokenLimit);
      }
    }

    /** `getConfigs`: the key, then the limit, each read from the file as the previous step
        left it. */
    method GetConfigs(typedKey: string, answer: string, toNumber: string -> Option<int>)
      returns (apiKey: Option<string>, tokenLimit: int)
      modifies this
      ensures IsSupportedLimit(tokenLimit)
      ensures old(content).Some? ==> apiKey == ApiKeyOf(old(content).value)
      ensures old(content).None? ==> apiKey == Some(Trim(typedKey))
      ensures var afterKey := if old(content).Some? then old(content).value
                              else Prepended(KeyField, Trim(typedKey), None);
              var stored := StoredTokenLimit(afterKey, toNumber);
              tokenLimit == ResolveTokenLimit(stored, answer)
              && content == if stored.Some? && IsSupportedLimit(stored.value) then Some(afterKey)
                            else Some(Prepended(LimitField, Decimal(tokenLimit), Some(afterKey)))
    {
      apiKey := ReadApiKey(typedKey);
      tokenLimit := ReadTokenLimit(answer, toNumber);
    }
  }
}
