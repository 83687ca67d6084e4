/** Conversation memory (`ConversationRepository` in `src/database/repositories.py`): one
    history per user, upserted whole, trimmed to the last `2 * conversation_memory_size`
    messages on every save. */
module Conversation {
  import opened Slices
  import opened Config

  /** `ConversationMessage`; the timestamp is the time the message object was built. */
  datatype Message = Message(role: string, content: string, timestamp: int)

  /** The `conversations` table: a history per Telegram id. */
  type Histories = map<int, seq<Message>>

  /** The messages `save_messages` keeps: `messages[-memory_size * 2:]`. */
  function Recent(messages: seq<Message>, memory: MemorySize): (r: seq<Message>)
    ensures |r| == if |messages| < 2 * memory then |messages| else 2 * memory
    ensures r == messages[|messages| - |r|..]
  {
    FromEnd(messages, 2 * memory)
  }

  /** `get_messages`: the stored history, or none when the user has no row or the store
      fails. */
  function GetMessages(store: Histories, telegramId: int, fails: bool): (r: seq<Message>)
    ensures fails || telegramId !in store ==> r == []
    ensures !fails && telegramId in store ==> r == store[telegramId]
  {
    if fails || telegramId !in store then [] else store[telegramId]
  }

  /** `save_messages`: upsert the trimmed history; `false` and no change when the store
      fails. */
  function SaveMessages(store: Histories, telegramId: int, messages: seq<Message>, memory: MemorySize,
                        fails: bool): (r: (bool, Histories))
    ensures r.0 <==> !fails
    ensures r.0 ==> telegramId in r.1 && r.1[telegramId] == Recent(messages, memory)
    ensures forall id | id != telegramId :: (id in r.1 <==> id in store) && (id in store ==> r.1[id] == store[id])
    ensures !r.0 ==> r.1 == store
  {
    if fails then (false, store) else (true, store[telegramId := Recent(messages, memory)])
  }

  /** Which store calls fail during `add_message`. */
  datatype HistoryFaults = HistoryFaults(readFails: bool, writeFails: bool)

  /** `add_message`: read the history, append the message, save. It succeeds exactly when
      the write does; then the user's history ends with the new message and holds at most
      `2 * memory` messages. A failed write changes nothing. */
  function AddMessage(store: Histories, telegramId: int, role: string, content: string, now: int,
                      memory: MemorySize, faults: HistoryFaults): (r: (bool, Histories))
    ensures r.0 <==> !faults.writeFails
    ensures !r.0 ==> r.1 == store
    ensures r.0 ==> telegramId in r.1 && 1 <= |r.1[telegramId]| <= 2 * memory &&
                    r.1[telegramId][|r.1[telegramId]| - 1] == Message(role, content, now)
  {
    var history := GetMessages(store, telegramId, faults.readFails);
    var messages := history + [Message(role, content, now)];
    var r := SaveMessages(store, telegramId, messages, memory, faults.writeFails);
    if r.0 then
      var kept := Recent(messages, memory);
      assert r.1[telegramId] == kept && kept == messages[|messages| - |kept|..];
      assert kept[|kept| - 1] == messages[|messages| - 1];
      r
    else r
  }

  /** Adding a message never touches another user's history. */
  lemma AddMessageLeavesOthers(store: Histories, telegramId: int, role: string, content: string, now: int,
                               memory: MemorySize, faults: HistoryFaults, other: int)
    requires other != telegramId
    ensures var r := AddMessage(store, telegramId, role, content, now, memory, faults);
            && (other in r.1 <==> other in store)
            && (other in store ==> r.1[other] == store[other])
  {
  }

  /** After a successful `add_message` the new message is the last one kept, at most
      `2 * memory` messages are kept, and they are the most recent of the old history
      followed by the new message. A failed read loses the old history. */
  lemma AddMessageKeepsRecent(store: Histories, telegramId: int, role: string, content: string, now: int,
                              memory: MemorySize, faults: HistoryFaults)
    requires !faults.writeFails
    ensures var r := AddMessage(store, telegramId, role, content, now, memory, faults);
            var before := GetMessages(store, telegramId, faults.readFails);
            var kept := r.1[telegramId];
            && r.0
            && |kept| <= 2 * memory
            && kept[|kept| - 1] == Message(role, content, now)
            && kept == (before + [Message(role, content, now)])[|before| + 1 - |kept|..]
            && (faults.readFails ==> kept == [Message(role, content, now)])
  {
    var before := GetMessages(store, telegramId, faults.readFails);
    var message := Message(role, content, now);
    var all := before + [message];
    var kept := Recent(all, memory);
    var r := SaveMessages(store, telegramId, all, memory, faults.writeFails);
    assert r == AddMessage(store, telegramId, role, content, now, memory, faults);
    assert r.0 && r.1[telegramId] == kept;
    assert |all| == |before| + 1 && kept == all[|all| - |kept|..];
    assert kept[|kept| - 1] == all[|all| - 1] == message;
    if faults.readFails {
      assert all == [message];
    }
  }

  /** Saving a history that already fits stores it unchanged, so trimming is idempotent. */
  lemma RecentIdempotent(messages: seq<Message>, memory: MemorySize)
    ensures Recent(Recent(messages, memory), memory) == Recent(messages, memory)
  {
  }

  /** Why the memory size is at least 1: with 0 the slice `messages[-0:]` would keep the
      whole history instead of none of it. */
  lemma ZeroMemoryWouldKeepAll(messages: seq<Message>)
    ensures FromEnd(messages, 2 * 0) == messages
  {
  }
}
