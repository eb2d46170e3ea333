/** The reply extractors of src/parsers.ts: the comma-list split, the fenced-block capture and
    the guarded JSON parse of the edit suggestions. */
module Parsers {
  import opened Wrappers
  import opened Text

  /** A value produced by `JSON.parse`. */
  datatype JsonValue =
    | JNull
    | JBool(b: bool)
    | JNumber(n: real)
    | JString(s: string)
    | JArray(elements: seq<JsonValue>)
    | JObject(members: seq<(string, JsonValue)>)

  /** `v && typeof v === 'object'`: arrays and objects are truthy objects; `null` is not. */
  predicate IsTruthyObject(v: JsonValue) {
    v.JArray? || v.JObject?
  }

  /** The inner `safelyParseJSON`. `parse` stands for `JSON.parse`; `None` means it threw.
      The result is the parsed value when that is a truthy object, and null otherwise. */
  function SafelyParse(jsonString: string, parse: string -> Option<JsonValue>): (r: Option<JsonValue>)
    ensures r.Some? ==> parse(jsonString) == r && IsTruthyObject(r.value)
    ensures r.None? <==> (parse(jsonString).None? || !IsTruthyObject(parse(jsonString).value))
  {
    match parse(jsonString)
    case None => None
    case Some(v) => if IsTruthyObject(v) then Some(v) else None
  }

  /** The fence delimiter. */
  const Fence: string := "```"

  /** The opening fence is the first occurrence of "```"; the closing one is the next occurrence
      starting at least three characters later (the lazy `[\s\S]*?`). */
  predicate FencePair(text: string, i: int, j: int) {
    StartsAt(text, i, Fence) && (forall k :: 0 <= k < i ==> !StartsAt(text, k, Fence))
    && i + 3 <= j && StartsAt(text, j, Fence) && (forall k :: i + 3 <= k < j ==> !StartsAt(text, k, Fence))
  }

  /** `extractJSONString` of src/parsers.ts: the text between the first fence pair, or null. */
  function ExtractFencedString(text: string): (r: Option<string>)
    ensures r.None? <==> forall i, j :: 0 <= i && i + 3 <= j ==> !(StartsAt(text, i, Fence) && StartsAt(text, j, Fence))
    ensures r.Some? ==> exists i, j :: FencePair(text, i, j) && r.value == text[i + 3..j]
    ensures r.Some? ==> forall k :: 0 <= k ==> !StartsAt(r.value, k, Fence)
  {
    match IndexFrom(text, Fence, 0)
    case None => None
    case Some(i) =>
      match IndexFrom(text, Fence, i + 3)
      case None =>
        assert forall i', j :: 0 <= i' && i' + 3 <= j && StartsAt(text, i', Fence) ==> !StartsAt(text, j, Fence) by {
          forall i', j | 0 <= i' && i' + 3 <= j && StartsAt(text, i', Fence) ensures !StartsAt(text, j, Fence) {
            assert i <= i';
          }
        }
        None
      case Some(j) =>
        var c := text[i + 3..j];
        assert FencePair(text, i, j);
        assert forall k :: 0 <= k ==> !StartsAt(c, k, Fence) by {
          forall k | 0 <= k ensures !StartsAt(c, k, Fence) {
            StartsAtSlice(text, i + 3, j, k, Fence);
          }
        }
        Some(c)
  }

  /** `parseCodeSuggestions` of src/parsers.ts. */
  function ParseCodeSuggestions(text: string, parse: string -> Option<JsonValue>): (r: Option<JsonValue>)
    ensures !Includes(text, Fence) ==> r == SafelyParse(text, parse)
    ensures Includes(text, Fence) && ExtractFencedString(text) in {None, Some("")} ==> r.None?
    ensures Includes(text, Fence) && ExtractFencedString(text).Some? && ExtractFencedString(text).value != "" ==>
              r == SafelyParse(ExtractFencedString(text).value, parse)
    ensures r.Some? ==> IsTruthyObject(r.value)
  {
    if Includes(text, Fence) then
      match ExtractFencedString(text)
      case None => None
      case Some(jsonText) => if jsonText == "" then None else SafelyParse(jsonText, parse)
    else SafelyParse(text, parse)
  }

  /** The text of a fenced reply: prose, a fence, the payload, a fence, and the rest. */
  function Fenced(prose: string, payload: string, rest: string): string {
    prose + (Fence + (payload + (Fence + rest)))
  }

  /** Where the parts of a fenced reply sit: the opening fence at `i`, the closing one at `j`. */
  lemma FencedLayout(prose: string, payload: string, rest: string, i: nat, j: nat)
    requires i == |prose| && j == |prose| + 3 + |payload|
    ensures var text := Fenced(prose, payload, rest);
            j + 3 <= |text| && StartsAt(text, i, Fence) && StartsAt(text, j, Fence)
            && text[i + 3..j] == payload
            && forall k :: 0 <= k < i ==> text[k] == prose[k]
  {
    var text := Fenced(prose, payload, rest);
    assert text[i..i + 3] == Fence;
    assert text[j..j + 3] == Fence;
    assert text[i + 3..j] == payload;
  }

  /** The first fence of a fenced reply whose prose has no backquote is the one after the prose. */
  lemma FencedOpening(prose: string, payload: string, rest: string, i: nat, j: nat)
    requires '`' !in prose
    requires i == |prose| && j == |prose| + 3 + |payload|
    ensures IndexFrom(Fenced(prose, payload, rest), Fence, 0) == Some(i)
  {
    var text := Fenced(prose, payload, rest);
    FencedLayout(prose, payload, rest, i, j);
    forall k | 0 <= k < i ensures !StartsAt(text, k, Fence) {
      assert text[k..k + 3][0] == text[k] == prose[k];
    }
    IndexFromFirst(text, Fence, 0, i);
  }

  /** No fence starts between the opening fence and the one after the payload, when the
      payload holds no fence and does not end with a backquote. */
  lemma NoFenceInPayload(prose: string, payload: string, rest: string, i: nat, j: nat, k: nat)
    requires payload != [] && payload[|payload| - 1] != '`'
    requires forall k :: 0 <= k ==> !StartsAt(payload, k, Fence)
    requires i == |prose| && j == |prose| + 3 + |payload| && i + 3 <= k < j
    ensures !StartsAt(Fenced(prose, payload, rest), k, Fence)
  {
    var text := Fenced(prose, payload, rest);
    FencedLayout(prose, payload, rest, i, j);
    if k + 3 <= j {
      StartsAtWithin(text, i + 3, j, k, Fence);
      assert !StartsAt(text[i + 3..j], k - (i + 3), Fence);
    } else {
      // an occurrence here would end inside the closing fence and hold the payload's last char
      assert text[k..k + 3][j - 1 - k] == text[j - 1] == text[i + 3..j][|payload| - 1];
    }
  }

  lemma NoFenceInsidePayload(prose: string, payload: string, rest: string, i: nat, j: nat)
    requires payload != [] && payload[|payload| - 1] != '`'
    requires forall k :: 0 <= k ==> !StartsAt(payload, k, Fence)
    requires i == |prose| && j == |prose| + 3 + |payload|
    ensures forall k :: i + 3 <= k < j ==> !StartsAt(Fenced(prose, payload, rest), k, Fence)
  {
    forall k | i + 3 <= k < j ensures !StartsAt(Fenced(prose, payload, rest), k, Fence) {
      NoFenceInPayload(prose, payload, rest, i, j, k);
    }
  }

  /** The next fence is the one after the payload. */
  lemma FencedClosing(prose: string, payload: string, rest: string, i: nat, j: nat)
    requires payload != [] && payload[|payload| - 1] != '`'
    requires forall k :: 0 <= k ==> !StartsAt(payload, k, Fence)
    requires i == |prose| && j == |prose| + 3 + |payload|
    ensures IndexFrom(Fenced(prose, payload, rest), Fence, i + 3) == Some(j)
  {
    FencedLayout(prose, payload, rest, i, j);
    NoFenceInsidePayload(prose, payload, rest, i, j);
    IndexFromFirst(Fenced(prose, payload, rest), Fence, i + 3, j);
  }

  /** A reply whose first two fences are at `i` and `j` is parsed from what lies between them. */
  lemma ParseBetweenFences(text: string, i: nat, j: nat, parse: string -> Option<JsonValue>)
    requires IndexFrom(text, Fence, 0) == Some(i) && IndexFrom(text, Fence, i + 3) == Some(j) && i + 3 < j
    ensures ParseCodeSuggestions(text, parse) == SafelyParse(text[i + 3..j], parse)
  {
  }

  /** A payload written alone inside one fence pair is what gets parsed. */
  lemma FencedRoundTrip(prose: string, payload: string, rest: string, parse: string -> Option<JsonValue>)
    requires '`' !in prose
    requires payload != [] && payload[|payload| - 1] != '`'
    requires forall k :: 0 <= k ==> !StartsAt(payload, k, Fence)
    ensures ParseCodeSuggestions(Fenced(prose, payload, rest), parse) == SafelyParse(payload, parse)
  {
    var i, j := |prose|, |prose| + 3 + |payload|;
    FencedLayout(prose, payload, rest, i, j);
    FencedOpening(prose, payload, rest, i, j);
    FencedClosing(prose, payload, rest, i, j);
    ParseBetweenFences(Fenced(prose, payload, rest), i, j, parse);
  }

  /** `extractRequestedFiles`: one trimmed entry per comma-separated segment. */
  function ExtractRequestedFiles(text: string): (r: seq<string>)
    ensures |r| == Count(text, ',') + 1
    ensures forall i :: 0 <= i < |r| ==> r[i] == Trim(Split(text, ',')[i])
    ensures forall i :: 0 <= i < |r| ==> IsTrimmed(r[i]) && ',' !in r[i]
  {
    var pieces := Split(text, ',');
    var r := seq(|pieces|, i requires 0 <= i < |pieces| => Trim(pieces[i]));
    assert forall i :: 0 <= i < |r| ==> ',' !in r[i] by {
      forall i | 0 <= i < |r| ensures ',' !in r[i] {
        assert ',' !in pieces[i];
      }
    }
    r
  }

  /** A list written as entries joined by commas, with any whitespace around them, comes back
      as those entries, trimmed and in order. */
  lemma RequestedFilesRoundTrip(entries: seq<string>)
    requires |entries| >= 1 && forall i :: 0 <= i < |entries| ==> ',' !in entries[i]
    ensures ExtractRequestedFiles(Join(entries, ',')) == seq(|entries|, i requires 0 <= i < |entries| => Trim(entries[i]))
  {
    SplitJoin(entries, ',');
  }
}
