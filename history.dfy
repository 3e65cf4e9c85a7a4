/**
 * The conversation history kept by the main loop (`messagesHistory`): a
 * list of chat messages, appended to in user/assistant pairs, whose oldest
 * pair is dropped once the list grows past `CHAT_COUNT_MAX`.
 */
module History {

  datatype Role = System | User | Assistant

  /** A chat message object `{"role": ..., "content": ...}`. */
  datatype Message = Message(role: Role, content: string)

  /** Most messages the history may hold. */
  const CHAT_COUNT_MAX: nat := 20

  /** The list after appending one user/assistant pair and evicting the oldest pair if it overflows. */
  function AfterTurn(h: seq<Message>, user: Message, assistant: Message, max: nat): (r: seq<Message>)
    ensures |r| <= |h| + 2
    ensures |h| + 2 > max ==> |r| == |h|
  {
    var added := h + [user, assistant];
    if |added| > max then added[2..] else added
  }

  /** The shape the history keeps: an even number of messages, at most `max` of them. */
  predicate Bounded(h: seq<Message>, max: nat)
  {
    |h| % 2 == 0 && |h| <= max
  }

  /** Messages alternate user, assistant, user, assistant, ... starting with a user message. */
  predicate Alternating(h: seq<Message>)
  {
    |h| % 2 == 0 &&
    forall k :: 0 <= k < |h| ==> h[k].role == (if k % 2 == 0 then User else Assistant)
  }

  /** Appending a pair keeps the history even in length and within the bound. */
  lemma AfterTurnStaysBounded(h: seq<Message>, user: Message, assistant: Message, max: nat)
    requires Bounded(h, max)
    ensures Bounded(AfterTurn(h, user, assistant, max), max)
  {
  }

  /**
   * The new pair ends the history (when the bound leaves room for one pair),
   * and what precedes it is the old history, less its oldest pair exactly
   * when the old history was already full.
   */
  lemma AfterTurnIsFifo(h: seq<Message>, user: Message, assistant: Message, max: nat)
    requires Bounded(h, max) && max >= 2
    ensures var r := AfterTurn(h, user, assistant, max);
      && |r| >= 2 && r[|r| - 2] == user && r[|r| - 1] == assistant
      && (|h| + 2 <= max ==> r[..|r| - 2] == h)
      && (|h| + 2 > max ==> |h| >= 2 && r[..|r| - 2] == h[2..])
  {
    var r := AfterTurn(h, user, assistant, max);
    if |h| + 2 > max {
      assert r[..|r| - 2] == h[2..];
    } else {
      assert r[..|r| - 2] == h;
    }
  }

  /** With a bound below two the history can never keep a pair. */
  lemma AfterTurnWithTinyBound(h: seq<Message>, user: Message, assistant: Message, max: nat)
    requires Bounded(h, max) && max < 2
    ensures AfterTurn(h, user, assistant, max) == []
  {
  }

  /** Appending a user message then an assistant message keeps the roles alternating. */
  lemma AfterTurnAlternates(h: seq<Message>, user: Message, assistant: Message, max: nat)
    requires Alternating(h) && user.role == User && assistant.role == Assistant
    ensures Alternating(AfterTurn(h, user, assistant, max))
  {
    var added := h + [user, assistant];
    assert Alternating(added);
    if |added| > max {
      var r := added[2..];
      forall k | 0 <= k < |r|
        ensures r[k].role == (if k % 2 == 0 then User else Assistant)
      {
        assert r[k] == added[k + 2];
      }
    }
  }

  /** The history of successive turns, oldest first, each a (user, assistant) pair. */
  function Replay(h: seq<Message>, turns: seq<(Message, Message)>, max: nat): seq<Message>
    decreases |turns|
  {
    if turns == [] then h
    else Replay(AfterTurn(h, turns[0].0, turns[0].1, max), turns[1..], max)
  }

  /** Any sequence of turns leaves the history even in length and within the bound. */
  lemma {:induction false} ReplayStaysBounded(h: seq<Message>, turns: seq<(Message, Message)>, max: nat)
    requires Bounded(h, max)
    ensures Bounded(Replay(h, turns, max), max)
    decreases |turns|
  {
    if turns != [] {
      AfterTurnStaysBounded(h, turns[0].0, turns[0].1, max);
      ReplayStaysBounded(AfterTurn(h, turns[0].0, turns[0].1, max), turns[1..], max);
    }
  }

  /** Replaying one more turn is one more `AfterTurn` on the replayed history. */
  lemma {:induction false} ReplaySnoc(h: seq<Message>, turns: seq<(Message, Message)>, last: (Message, Message), max: nat)
    ensures Replay(h, turns + [last], max) == AfterTurn(Replay(h, turns, max), last.0, last.1, max)
    decreases |turns|
  {
    if turns == [] {
      assert [] + [last] == [last];
      assert [last][1..] == [];
    } else {
      assert (turns + [last])[1..] == turns[1..] + [last];
      ReplaySnoc(AfterTurn(h, turns[0].0, turns[0].1, max), turns[1..], last, max);
    }
  }

  /** With room for two pairs, three turns leave only the second and the third. */
  lemma ThreeTurnsKeepLastTwo(u1: Message, a1: Message, u2: Message, a2: Message, u3: Message, a3: Message)
    ensures Replay([], [(u1, a1), (u2, a2), (u3, a3)], 4) == [u2, a2, u3, a3]
  {
    var turns := [(u1, a1), (u2, a2), (u3, a3)];
    var rest1, rest2 := [(u2, a2), (u3, a3)], [(u3, a3)];
    assert turns[1..] == rest1 && rest1[1..] == rest2 && rest2[1..] == [];
    assert AfterTurn([], u1, a1, 4) == [u1, a1];
    assert AfterTurn([u1, a1], u2, a2, 4) == [u1, a1, u2, a2];
    assert AfterTurn([u1, a1, u2, a2], u3, a3, 4) == [u2, a2, u3, a3];
    assert Replay([], turns, 4) == Replay([u1, a1], rest1, 4);
    assert Replay([u1, a1], rest1, 4) == Replay([u1, a1, u2, a2], rest2, 4);
    assert Replay([u1, a1, u2, a2], rest2, 4) == Replay([u2, a2, u3, a3], [], 4);
  }

  /** The live history list, changed in place by `add` and `remove(0)`. */
  class ConversationHistory {
    var messages: seq<Message>
    const chatCountMax: nat

    ghost predicate Valid()
      reads this
    {
      Bounded(messages, chatCountMax)
    }

    /** `new JsonArray()`: the history starts empty. */
    constructor (max: nat)
      ensures Valid() && messages == [] && chatCountMax == max
    {
      messages := [];
      chatCountMax := max;
    }

    /** `JsonArray.add`. */
    method Add(m: Message)
      modifies this
      ensures messages == old(messages) + [m]
    {
      messages := messages + [m];
    }

    /** `JsonArray.remove(0)` on a non-empty list. */
    method RemoveFirst() returns (removed: Message)
      requires messages != []
      modifies this
      ensures removed == old(messages)[0] && messages == old(messages)[1..]
    {
      removed := messages[0];
      messages := messages[1..];
    }

    /**
     * Lines 112-119 of the main loop: add the user message and the
     * assistant message, then drop the two oldest messages if the history
     * is now longer than the bound.
     */
    method AppendTurn(userMessage: Message, assistantMessage: Message)
      requires Valid()
      modifies this
      ensures Valid()
      ensures messages == AfterTurn(old(messages), userMessage, assistantMessage, chatCountMax)
    {
      Add(userMessage);
      Add(assistantMessage);
      if |messages| > chatCountMax {
        var _ := RemoveFirst();
        var _ := RemoveFirst();
      }
    }
  }
}
