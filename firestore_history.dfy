/** The per-conversation history store: the `ai_bot_conversations`
    collection, keyed by `"<channel>_<user>"`, each document holding the
    ordered list of `{role, content}` turns of one user in one channel. The
    collection is a map held by the `ConversationHistory` object, which reads
    it, rewrites a document, or deletes one. */
module FirestoreHistory {
  import opened Python

  /** One stored turn, `{"role": role, "content": content}`. */
  datatype Turn = Turn(role: string, content: string)

  /** A stored document. `messages` is `None` when the document has no
      `messages` field. The `updated_at` timestamp is not modelled. */
  datatype Document = Document(messages: Option<seq<Turn>>, channelId: int, userId: int)

  const UserRole := "user"
  const AssistantRole := "assistant"

  /** `_get_doc_id`: the channel id and the user id in decimal, joined by `_`. */
  function DocId(channelId: int, userId: int): (id: string)
    ensures |id| >= 3 && '_' in id
  {
    IntToString(channelId) + "_" + IntToString(userId)
  }

  /** Splitting a text at a separator character that neither left part
      holds recovers both parts. */
  lemma {:induction false} SplitAtFirst(a1: string, b1: string, a2: string, b2: string, c: char)
    requires c !in a1 && c !in a2
    requires a1 + [c] + b1 == a2 + [c] + b2
    ensures a1 == a2 && b1 == b2
    decreases |a1|
  {
    var s := a1 + [c] + b1;
    assert s[|a1|] == c && s[|a2|] == c;
    assert forall i :: 0 <= i < |a1| ==> s[i] == a1[i] != c;
    assert forall i :: 0 <= i < |a2| ==> s[i] == a2[i] != c;
    assert a1 == s[..|a1|] == a2;
    assert b1 == s[|a1| + 1..] == b2;
  }

  /** Distinct (channel, user) pairs never share a document: decimal
      digits and `-` never contain `_`. */
  lemma DocIdInjective(c1: int, u1: int, c2: int, u2: int)
    requires DocId(c1, u1) == DocId(c2, u2)
    ensures c1 == c2 && u1 == u2
  {
    SplitAtFirst(IntToString(c1), IntToString(u1), IntToString(c2), IntToString(u2), '_');
    IntToStringInjective(c1, c2);
    IntToStringInjective(u1, u2);
  }

  /** What `get_history` returns for a document id. */
  function StoredMessages(docs: map<string, Document>, id: string): seq<Turn> {
    if id !in docs then [] else docs[id].messages.GetOr([])
  }

  /** The eviction step of `add_message`: when the list is longer than
      `2 * maxHistory`, keep `messages[-(2 * maxHistory):]`. */
  function Retain(messages: seq<Turn>, maxHistory: int): (r: seq<Turn>)
    ensures |r| <= |messages| && r == messages[|messages| - |r|..]
    ensures maxHistory >= 1 ==> |r| == Min(|messages|, 2 * maxHistory)
    ensures maxHistory == 0 ==> r == messages
    ensures maxHistory < 0 ==> |r| == Max(0, |messages| + 2 * maxHistory)
  {
    if |messages| > maxHistory * 2 then TailFrom(messages, -(maxHistory * 2)) else messages
  }

  /** `add_message` on the stored list: append the turn, then evict. */
  function Appended(messages: seq<Turn>, turn: Turn, maxHistory: int): seq<Turn> {
    Retain(messages + [turn], maxHistory)
  }

  /** `add_conversation` on the stored list: the user turn, then the
      assistant turn. */
  function AfterConversation(messages: seq<Turn>, question: string, answer: string, maxHistory: int): seq<Turn> {
    Appended(Appended(messages, Turn(UserRole, question), maxHistory), Turn(AssistantRole, answer), maxHistory)
  }

  /** The collection after `add_message`: only the document of the pair is
      rewritten. */
  function WithMessage(docs: map<string, Document>, channelId: int, userId: int, turn: Turn, maxHistory: int): map<string, Document> {
    var id := DocId(channelId, userId);
    docs[id := Document(Some(Appended(StoredMessages(docs, id), turn, maxHistory)), channelId, userId)]
  }

  /** The collection after `add_conversation`: the user turn added, then
      the assistant turn. */
  function WithConversation(docs: map<string, Document>, channelId: int, userId: int,
                            userMessage: string, assistantMessage: string, maxHistory: int): map<string, Document>
  {
    WithMessage(WithMessage(docs, channelId, userId, Turn(UserRole, userMessage), maxHistory),
                channelId, userId, Turn(AssistantRole, assistantMessage), maxHistory)
  }

  /** The collection after `clear_history`. */
  function WithoutConversation(docs: map<string, Document>, channelId: int, userId: int): map<string, Document> {
    docs - {DocId(channelId, userId)}
  }

  /** The newest `n` elements of `s` (all of it when it is shorter). */
  function LastN<T>(s: seq<T>, n: nat): (r: seq<T>)
    ensures |r| == Min(|s|, n) && r == s[|s| - |r|..]
  {
    s[|s| - Min(|s|, n)..]
  }

  /** With a positive bound, eviction keeps exactly the newest `2 * maxHistory` turns. */
  lemma RetainKeepsNewest(messages: seq<Turn>, maxHistory: int)
    requires maxHistory >= 1
    ensures Retain(messages, maxHistory) == LastN(messages, 2 * maxHistory)
  {
  }

  /** The new turn is always the last stored one when `maxHistory >= 0`,
      and the bound then holds whenever `maxHistory >= 1`. */
  lemma AppendedEndsWithTurn(messages: seq<Turn>, turn: Turn, maxHistory: int)
    requires maxHistory >= 0
    ensures var r := Appended(messages, turn, maxHistory);
      |r| >= 1 && r[|r| - 1] == turn
    ensures maxHistory >= 1 ==> |Appended(messages, turn, maxHistory)| <= 2 * maxHistory
  {
    var s := messages + [turn];
    var r := Retain(s, maxHistory);
    assert r[|r| - 1] == s[|s| - 1];
  }

  /** Below the bound nothing is evicted: the turn is only appended. */
  lemma AppendBelowBound(messages: seq<Turn>, turn: Turn, maxHistory: int)
    requires maxHistory >= 1 && |messages| < 2 * maxHistory
    ensures Appended(messages, turn, maxHistory) == messages + [turn]
  {
  }

  /** Eviction drops the oldest turns only: the result is the old list
      minus a prefix, followed by the new turn. */
  lemma EvictionDropsOldest(messages: seq<Turn>, turn: Turn, maxHistory: int)
    requires maxHistory >= 1
    ensures var r := Appended(messages, turn, maxHistory);
      exists k :: 0 <= k <= |messages| && r == messages[k..] + [turn]
  {
    var r := Appended(messages, turn, maxHistory);
    var k := |messages| + 1 - |r|;
    assert r == messages[k..] + [turn];
  }

  /** `MAX_HISTORY_LENGTH = 0`: the slice `messages[-0:]` is the whole list,
      so nothing is ever evicted. */
  lemma ZeroBoundKeepsEverything(messages: seq<Turn>, turn: Turn)
    ensures Appended(messages, turn, 0) == messages + [turn]
  {
  }

  /** A negative `MAX_HISTORY_LENGTH` drops the oldest `2 * |maxHistory|`
      turns, so a short history loses even the turn just added. */
  lemma NegativeBoundDropsNewTurn(messages: seq<Turn>, turn: Turn, maxHistory: int)
    requires maxHistory < 0 && |messages| + 1 <= -2 * maxHistory
    ensures Appended(messages, turn, maxHistory) == []
  {
  }

  /** `add_conversation` leaves the user turn and then the assistant turn
      last, within the bound. */
  lemma ConversationEndsWithExchange(messages: seq<Turn>, question: string, answer: string, maxHistory: int)
    requires maxHistory >= 1
    ensures var r := AfterConversation(messages, question, answer, maxHistory);
      |r| >= 2 && |r| <= 2 * maxHistory
      && r[|r| - 2] == Turn(UserRole, question) && r[|r| - 1] == Turn(AssistantRole, answer)
  {
    var q, a := Turn(UserRole, question), Turn(AssistantRole, answer);
    var first := Appended(messages, q, maxHistory);
    AppendedEndsWithTurn(messages, q, maxHistory);
    AppendedEndsWithTurn(first, a, maxHistory);
    var s := first + [a];
    var r := Retain(s, maxHistory);
    assert |r| == Min(|first| + 1, 2 * maxHistory);
    assert r[|r| - 2] == s[|s| - 2] == first[|first| - 1];
  }

  /** Trimming to the newest `n` before appending changes nothing about the
      newest `n` after it. */
  lemma LastNAbsorbs<T>(s: seq<T>, t: T, n: nat)
    ensures LastN(LastN(s, n) + [t], n) == LastN(s + [t], n)
  {
    var left, right := LastN(LastN(s, n) + [t], n), LastN(s + [t], n);
    assert |left| == |right|;
    forall i | 0 <= i < |left| ensures left[i] == right[i] {
      if i == |left| - 1 {
      } else {
        assert left[i] == LastN(s, n)[|LastN(s, n)| + 1 - |left| + i];
      }
    }
  }

  /** A run of `add_message` calls on one document. */
  function AppendAll(messages: seq<Turn>, turns: seq<Turn>, maxHistory: int): seq<Turn>
    decreases |turns|
  {
    if turns == [] then messages
    else AppendAll(Appended(messages, turns[0], maxHistory), turns[1..], maxHistory)
  }

  /** However long the run, the document holds the newest `2 * maxHistory`
      of all the turns it has ever been given, in order. */
  lemma {:induction false} AppendAllKeepsNewest(messages: seq<Turn>, turns: seq<Turn>, maxHistory: int)
    requires maxHistory >= 1 && |turns| >= 1
    ensures AppendAll(messages, turns, maxHistory) == LastN(messages + turns, 2 * maxHistory)
    decreases |turns|
  {
    var n, s, rest := 2 * maxHistory, messages + [turns[0]], turns[1..];
    var next := Appended(messages, turns[0], maxHistory);
    if |turns| == 1 {
      assert turns == [turns[0]];
      RetainKeepsNewest(s, maxHistory);
    } else {
      calc {
        AppendAll(messages, turns, maxHistory);
        AppendAll(next, rest, maxHistory);
        { AppendAllKeepsNewest(next, rest, maxHistory); }
        LastN(next + rest, n);
        { RetainKeepsNewest(s, maxHistory); }
        LastN(LastN(s, n) + rest, n);
        { LastNFold(s, rest, n); }
        LastN(s + rest, n);
        { assert s + rest == messages + turns; }
        LastN(messages + turns, n);
      }
    }
  }

  /** Dropping old elements of a prefix never shows in the newest `n` of the whole. */
  lemma {:induction false} LastNFold<T>(s: seq<T>, rest: seq<T>, n: nat)
    ensures LastN(LastN(s, n) + rest, n) == LastN(s + rest, n)
    decreases |rest|
  {
    if rest != [] {
      var init, t := rest[..|rest| - 1], rest[|rest| - 1];
      assert rest == init + [t];
      LastNFold(s, init, n);
      LastNAbsorbs(LastN(s, n) + init, t, n);
      LastNAbsorbs(s + init, t, n);
      assert LastN(s, n) + rest == LastN(s, n) + init + [t];
      assert s + rest == s + init + [t];
    } else {
      assert LastN(s, n) + rest == LastN(s, n);
      assert s + rest == s;
    }
  }

  /** `get_history` after `add_message` is the appended and trimmed list. */
  lemma GetAfterAdd(docs: map<string, Document>, channelId: int, userId: int, turn: Turn, maxHistory: int)
    ensures StoredMessages(WithMessage(docs, channelId, userId, turn, maxHistory), DocId(channelId, userId))
         == Appended(StoredMessages(docs, DocId(channelId, userId)), turn, maxHistory)
  {
  }

  /** `add_message` leaves every other conversation untouched. */
  lemma AddLeavesOthers(docs: map<string, Document>, channelId: int, userId: int, turn: Turn, maxHistory: int, otherChannel: int, otherUser: int)
    requires (otherChannel, otherUser) != (channelId, userId)
    ensures StoredMessages(WithMessage(docs, channelId, userId, turn, maxHistory), DocId(otherChannel, otherUser))
         == StoredMessages(docs, DocId(otherChannel, otherUser))
  {
    var id, other := DocId(channelId, userId), DocId(otherChannel, otherUser);
    if other == id {
      DocIdInjective(otherChannel, otherUser, channelId, userId);
    }
  }

  /** `get_history` after `add_conversation` is the old list with the
      exchange added and trimmed. */
  lemma ConversationStored(docs: map<string, Document>, channelId: int, userId: int,
                           userMessage: string, assistantMessage: string, maxHistory: int)
    ensures StoredMessages(WithConversation(docs, channelId, userId, userMessage, assistantMessage, maxHistory), DocId(channelId, userId))
         == AfterConversation(StoredMessages(docs, DocId(channelId, userId)), userMessage, assistantMessage, maxHistory)
  {
    GetAfterAdd(docs, channelId, userId, Turn(UserRole, userMessage), maxHistory);
    GetAfterAdd(WithMessage(docs, channelId, userId, Turn(UserRole, userMessage), maxHistory),
                channelId, userId, Turn(AssistantRole, assistantMessage), maxHistory);
  }

  /** `add_conversation` leaves every other conversation untouched. */
  lemma ConversationLeavesOthers(docs: map<string, Document>, channelId: int, userId: int,
                                 userMessage: string, assistantMessage: string, maxHistory: int,
                                 otherChannel: int, otherUser: int)
    requires (otherChannel, otherUser) != (channelId, userId)
    ensures StoredMessages(WithConversation(docs, channelId, userId, userMessage, assistantMessage, maxHistory), DocId(otherChannel, otherUser))
         == StoredMessages(docs, DocId(otherChannel, otherUser))
  {
    var once := WithMessage(docs, channelId, userId, Turn(UserRole, userMessage), maxHistory);
    AddLeavesOthers(docs, channelId, userId, Turn(UserRole, userMessage), maxHistory, otherChannel, otherUser);
    AddLeavesOthers(once, channelId, userId, Turn(AssistantRole, assistantMessage), maxHistory, otherChannel, otherUser);
  }

  /** After `clear_history`, `get_history` gives `[]` and a second clear
      finds nothing; other conversations are untouched. */
  lemma ClearThenGet(docs: map<string, Document>, channelId: int, userId: int, otherChannel: int, otherUser: int)
    ensures StoredMessages(WithoutConversation(docs, channelId, userId), DocId(channelId, userId)) == []
    ensures DocId(channelId, userId) !in WithoutConversation(docs, channelId, userId)
    ensures (otherChannel, otherUser) != (channelId, userId) ==>
      StoredMessages(WithoutConversation(docs, channelId, userId), DocId(otherChannel, otherUser))
      == StoredMessages(docs, DocId(otherChannel, otherUser))
  {
    if DocId(otherChannel, otherUser) == DocId(channelId, userId) {
      DocIdInjective(otherChannel, otherUser, channelId, userId);
    }
  }

  /** A missing document and a document without `messages` both read as `[]`. */
  lemma MissingReadsEmpty(docs: map<string, Document>, id: string)
    requires id !in docs || docs[id].messages.None?
    ensures StoredMessages(docs, id) == []
  {
  }

  /** The `ai_bot_conversations` collection and its operations. */
  class ConversationHistory {
    const maxHistory: int
    var docs: map<string, Document>

    /** Attaching to the collection: `existing` is what it holds already,
        written by earlier runs or by another object over the same
        collection. */
    constructor(maxHistory: int, existing: map<string, Document>)
      ensures this.maxHistory == maxHistory && docs == existing
    {
      this.maxHistory := maxHistory;
      docs := existing;
    }

    /** `get_history`. */
    method GetHistory(channelId: int, userId: int) returns (messages: seq<Turn>)
      ensures messages == StoredMessages(docs, DocId(channelId, userId))
    {
      var id := DocId(channelId, userId);
      if id !in docs {
        return [];
      }
      var doc := docs[id];
      match doc.messages
      case None => messages := [];
      case Some(ms) => messages := ms;
    }

    /** `add_message`: read the document, append the turn, evict from the
        front, write the document back. */
    method AddMessage(channelId: int, userId: int, role: string, content: string)
      modifies this
      ensures docs == WithMessage(old(docs), channelId, userId, Turn(role, content), maxHistory)
    {
      var id := DocId(channelId, userId);
      var messages: seq<Turn> := [];
      if id in docs {
        messages := docs[id].messages.GetOr([]);
      }
      assert messages == StoredMessages(docs, id);
      messages := messages + [Turn(role, content)];
      ghost var appended := messages;
      if |messages| > maxHistory * 2 {
        messages := TailFrom(messages, -(maxHistory * 2));
      }
      assert messages == Retain(appended, maxHistory);
      docs := docs[id := Document(Some(messages), channelId, userId)];
    }

    /** `clear_history`: delete the document, reporting whether it existed. */
    method ClearHistory(channelId: int, userId: int) returns (existed: bool)
      modifies this
      ensures existed <==> DocId(channelId, userId) in old(docs)
      ensures docs == WithoutConversation(old(docs), channelId, userId)
    {
      var id := DocId(channelId, userId);
      existed := id in docs;
      if existed {
        docs := docs - {id};
      }
    }

    /** `add_conversation`: the user turn, then the assistant turn. */
    method AddConversation(channelId: int, userId: int, userMessage: string, assistantMessage: string)
      modifies this
      ensures docs == WithConversation(old(docs), channelId, userId, userMessage, assistantMessage, maxHistory)
    {
      AddMessage(channelId, userId, UserRole, userMessage);
      AddMessage(channelId, userId, AssistantRole, assistantMessage);
    }
  }
}
