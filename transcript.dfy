/** The conversation transcript and the token-budget trimmer of src/parsers.ts. */
module Transcript {
  import opened Wrappers
  import opened Seqs

  datatype Role = System | User | Assistant

  /** One entry of the dialogue sent to the remote service. */
  datatype Message = Message(role: Role, content: string)

  /** Sum of the estimated costs of all messages (`cost` stands for `calculateTokens`). */
  function TotalTokens(conversation: seq<Message>, cost: string -> nat): nat
    decreases |conversation|
  {
    if conversation == [] then 0
    else TotalTokens(conversation[..|conversation| - 1], cost) + cost(conversation[|conversation| - 1].content)
  }

  /** Index of the first message whose role is `User` (the `find` of the trimmer). */
  function FirstUserIndex(conversation: seq<Message>): (r: Option<nat>)
    ensures r.Some? ==> r.value < |conversation| && conversation[r.value].role == User
    ensures r.Some? ==> forall j :: 0 <= j < r.value ==> conversation[j].role != User
    ensures r.None? ==> forall j :: 0 <= j < |conversation| ==> conversation[j].role != User
    decreases |conversation|
  {
    if conversation == [] then None
    else if conversation[0].role == User then Some(0)
    else match FirstUserIndex(conversation[1..])
      case None => None
      case Some(i) => Some(i + 1)
  }

  /** The first user message, if any. */
  function FirstUser(conversation: seq<Message>): Option<Message> {
    match FirstUserIndex(conversation)
    case None => None
    case Some(i) => Some(conversation[i])
  }

  /** State of the backward walk: messages kept so far and the running counter. */
  datatype WalkState = WalkState(kept: seq<Message>, counter: int)

  /** The backward loop of the trimmer, started with `counter` and `kept`, over the messages
      `conversation[..i]` still to visit (from index `i - 1` down to 0). */
  function WalkBack(conversation: seq<Message>, i: nat, counter: int, kept: seq<Message>, limit: int,
                    cost: string -> nat): WalkState
    requires i <= |conversation|
    decreases i
  {
    if i == 0 then WalkState(kept, counter)
    else
      var msg := conversation[i - 1];
      var tokens := cost(msg.content);
      if counter + tokens <= limit then WalkBack(conversation, i - 1, counter + tokens, [msg] + kept, limit, cost)
      else if counter - tokens <= limit then WalkBack(conversation, i - 1, counter - tokens, kept, limit, cost)
      else WalkBack(conversation, i - 1, counter, kept, limit, cost)
  }

  /** What `trimConversationWithinTokenLimit` returns. */
  function Trimmed(conversation: seq<Message>, limit: int, cost: string -> nat): seq<Message> {
    var total := TotalTokens(conversation, cost);
    var n := |conversation|;
    if total <= limit then conversation
    else match FirstUser(conversation)
      case Some(u) => WalkBack(conversation, n, cost(u.content), [u], limit, cost).kept
      case None => WalkBack(conversation, n, total, [], limit, cost).kept
  }

  /** The walk only prepends: the initial `kept` stays at the end, and what is put before it is
      a subsequence of the visited messages in their original order. */
  lemma {:induction false} WalkKeepsOrder(conversation: seq<Message>, i: nat, counter: int, kept: seq<Message>,
                                          limit: int, cost: string -> nat)
    requires i <= |conversation|
    ensures EndsAfter(WalkBack(conversation, i, counter, kept, limit, cost).kept, kept, conversation[..i])
    decreases i
  {
    if i == 0 {
      var r := WalkBack(conversation, i, counter, kept, limit, cost).kept;
      assert r[..|r| - |kept|] == [];
    } else {
      var j := i - 1;
      var msg := conversation[j];
      var tokens := cost(msg.content);
      TakeSnoc(conversation, j);
      var visited := conversation[..j];
      assert conversation[..i] == visited + [msg];
      var w := WalkBack(conversation, i, counter, kept, limit, cost);
      if counter + tokens <= limit {
        assert w == WalkBack(conversation, j, counter + tokens, [msg] + kept, limit, cost);
        WalkKeepsOrder(conversation, j, counter + tokens, [msg] + kept, limit, cost);
        SubsequenceMoveLast(w.kept, msg, kept, visited);
      } else if counter - tokens <= limit {
        assert w == WalkBack(conversation, j, counter - tokens, kept, limit, cost);
        WalkKeepsOrder(conversation, j, counter - tokens, kept, limit, cost);
        EndsAfterExtend(w.kept, kept, visited, msg);
      } else {
        assert w == WalkBack(conversation, j, counter, kept, limit, cost);
        WalkKeepsOrder(conversation, j, counter, kept, limit, cost);
        EndsAfterExtend(w.kept, kept, visited, msg);
      }
    }
  }

  /** A message is kept only when the counter plus its cost fits the limit, and the counter
      never leaves the limit once inside it; so the final counter is within the limit, unless
      the walk never kept or subtracted anything. */
  lemma {:induction false} WalkCounter(conversation: seq<Message>, i: nat, counter: int, kept: seq<Message>,
                                       limit: int, cost: string -> nat)
    requires i <= |conversation|
    ensures var w := WalkBack(conversation, i, counter, kept, limit, cost);
            w.counter <= limit || (w.kept == kept && w.counter == counter)
    ensures counter <= limit ==> WalkBack(conversation, i, counter, kept, limit, cost).counter <= limit
    decreases i
  {
    if i > 0 {
      var msg := conversation[i - 1];
      var tokens := cost(msg.content);
      if counter + tokens <= limit {
        WalkCounter(conversation, i - 1, counter + tokens, [msg] + kept, limit, cost);
      } else if counter - tokens <= limit {
        WalkCounter(conversation, i - 1, counter - tokens, kept, limit, cost);
      } else {
        WalkCounter(conversation, i - 1, counter, kept, limit, cost);
      }
    }
  }

  /** Over the limit with a user message present: the first user message is the last element
      of the result, and everything before it is a subsequence of the conversation. */
  lemma TrimmedAnchorsFirstUser(conversation: seq<Message>, limit: int, cost: string -> nat)
    requires TotalTokens(conversation, cost) > limit && FirstUser(conversation).Some?
    ensures var r := Trimmed(conversation, limit, cost);
            r != [] && r[|r| - 1] == FirstUser(conversation).value
            && IsSubsequence(r[..|r| - 1], conversation)
            && |r| <= |conversation| + 1
  {
    var u := FirstUser(conversation).value;
    var r := Trimmed(conversation, limit, cost);
    WalkKeepsOrder(conversation, |conversation|, cost(u.content), [u], limit, cost);
    TakeAll(conversation);
    SubsequenceLength(r[..|r| - 1], conversation);
  }

  /** Over the limit with no user message: the result is a subsequence of the conversation. */
  lemma TrimmedWithoutUser(conversation: seq<Message>, limit: int, cost: string -> nat)
    requires TotalTokens(conversation, cost) > limit && FirstUser(conversation).None?
    ensures IsSubsequence(Trimmed(conversation, limit, cost), conversation)
  {
    var r := Trimmed(conversation, limit, cost);
    WalkKeepsOrder(conversation, |conversation|, TotalTokens(conversation, cost), [], limit, cost);
    TakeAll(conversation);
    assert r[..|r|] == r;
  }

  /** The first loop of the trimmer: the total cost of the conversation. */
  method SumTokens(conversation: seq<Message>, cost: string -> nat) returns (total: nat)
    ensures total == TotalTokens(conversation, cost)
  {
    total := 0;
    for i := 0 to |conversation|
      invariant total == TotalTokens(conversation[..i], cost)
    {
      TakeTake(conversation, i + 1, i);
      total := total + cost(conversation[i].content);
    }
    TakeAll(conversation);
  }

  /** The second loop of the trimmer: from the last message to the first, a message is put in
      front of `kept` when it fits on top of the counter, and otherwise subtracted from the
      counter when that brings the counter within the limit. */
  method WalkBackLoop(conversation: seq<Message>, counter: int, kept: seq<Message>, tokenLimit: int,
                      cost: string -> nat)
    returns (trimmed: seq<Message>)
    ensures trimmed == WalkBack(conversation, |conversation|, counter, kept, tokenLimit, cost).kept
  {
    var currentTokens := counter;
    trimmed := kept;
    var i := |conversation|;
    while i > 0
      invariant 0 <= i <= |conversation|
      invariant WalkBack(conversation, i, currentTokens, trimmed, tokenLimit, cost)
                == WalkBack(conversation, |conversation|, counter, kept, tokenLimit, cost)
    {
      i := i - 1;
      var msg := conversation[i];
      var msgTokens := cost(msg.content);
      if currentTokens + msgTokens <= tokenLimit {
        currentTokens := currentTokens + msgTokens;
        trimmed := [msg] + trimmed;
      } else {
        var potentialTokens := currentTokens - msgTokens;
        if potentialTokens <= tokenLimit {
          currentTokens := potentialTokens;
        }
      }
    }
  }

  /** `trimConversationWithinTokenLimit`. What the result holds is stated by
      `TrimmedAnchorsFirstUser` and `TrimmedWithoutUser`. */
  method TrimConversationWithinTokenLimit(conversation: seq<Message>, tokenLimit: int, cost: string -> nat)
    returns (trimmed: seq<Message>)
    ensures trimmed == Trimmed(conversation, tokenLimit, cost)
    ensures TotalTokens(conversation, cost) <= tokenLimit ==> trimmed == conversation
  {
    var currentTokens := SumTokens(conversation, cost);
    if currentTokens <= tokenLimit {
      return conversation;
    }
    var initialPrompt := FirstUser(conversation);
    if initialPrompt.Some? {
      trimmed := WalkBackLoop(conversation, cost(initialPrompt.value.content), [initialPrompt.value], tokenLimit, cost);
    } else {
      trimmed := WalkBackLoop(conversation, currentTokens, [], tokenLimit, cost);
    }
  }

  /** Cost of one token per character, for the concrete scenarios below. */
  function CharCost(s: string): nat {
    |s|
  }

  /** The first user message can come out twice: once as the anchor, once kept by the walk,
      because the counter was first lowered by the cost of the dropped reply. */
  lemma AnchorDuplicated()
    ensures Trimmed([Message(User, "ab"), Message(Assistant, "cccccc")], 5, CharCost)
            == [Message(User, "ab"), Message(User, "ab")]
  {
    var conv := [Message(User, "ab"), Message(Assistant, "cccccc")];
    assert conv[..1] == [Message(User, "ab")];
    assert TotalTokens(conv, CharCost) == 8;
    assert FirstUser(conv) == Some(Message(User, "ab"));
    var u := [Message(User, "ab")];
    assert WalkBack(conv, 2, 2, u, 5, CharCost) == WalkBack(conv, 1, -4, u, 5, CharCost);
    assert WalkBack(conv, 1, -4, u, 5, CharCost) == WalkBack(conv, 0, -2, [conv[0]] + u, 5, CharCost);
  }

  /** The result can exceed the limit even though the first user message alone fits it. */
  lemma OverBudgetResult()
    ensures var r := Trimmed([Message(User, "abcd"), Message(Assistant, "wxyz")], 5, CharCost);
            r == [Message(User, "abcd"), Message(User, "abcd")] && TotalTokens(r, CharCost) == 8
  {
    var conv := [Message(User, "abcd"), Message(Assistant, "wxyz")];
    assert conv[..1] == [Message(User, "abcd")];
    assert TotalTokens(conv, CharCost) == 8;
    assert FirstUser(conv) == Some(Message(User, "abcd"));
    var u := [Message(User, "abcd")];
    assert WalkBack(conv, 2, 4, u, 5, CharCost) == WalkBack(conv, 1, 0, u, 5, CharCost);
    assert WalkBack(conv, 1, 0, u, 5, CharCost) == WalkBack(conv, 0, 4, [conv[0]] + u, 5, CharCost);
    var r := [Message(User, "abcd"), Message(User, "abcd")];
    assert r[..1] == [Message(User, "abcd")];
  }

  /** Without a user message the counter starts from the full total, not from zero, so the most
      recent message is dropped although it fits the limit on its own. */
  lemma CounterNotReset()
    ensures Trimmed([Message(System, "a"), Message(Assistant, "aaa")], 3, CharCost)
            == [Message(System, "a")]
  {
    var conv := [Message(System, "a"), Message(Assistant, "aaa")];
    assert conv[..1] == [Message(System, "a")];
    assert TotalTokens(conv, CharCost) == 4;
    assert FirstUserIndex(conv[1..]) == None;
    assert FirstUser(conv) == None;
    assert WalkBack(conv, 2, 4, [], 3, CharCost) == WalkBack(conv, 1, 1, [], 3, CharCost);
  }
}
