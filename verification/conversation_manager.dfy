/**
 * The registry of active conversations (src/utils/conversation_manager.py):
 * per chat, the handlers whose dialogue is in progress and the state each
 * one is in. The module-level dictionary becomes the `active` field of one
 * registry object; the conversation state is left abstract (`S`).
 */
module ConversationManager {

  type ChatId = int
  type HandlerName = string

  class ConversationRegistry<S> {
    /** chat id -> (handler name -> conversation state) */
    var active: map<ChatId, map<HandlerName, S>>

    /** No chat is kept with an empty handler map. */
    ghost predicate Valid()
      reads this
    {
      forall c :: c in active ==> |active[c]| > 0
    }

    constructor ()
      ensures Valid() && active == map[]
    {
      active := map[];
    }

    /** `register_conversation`: adds or overwrites one handler's state. */
    method Register(chat: ChatId, handler: HandlerName, state: S)
      requires Valid()
      modifies this
      ensures Valid()
      ensures chat in active && active[chat] == old(GetActive(chat))[handler := state]
      ensures forall c :: c != chat ==> (c in active <==> c in old(active))
      ensures forall c :: c != chat && c in active ==> active[c] == old(active[c])
      ensures IsActive(chat, handler) && GetActive(chat)[handler] == state
      ensures GetActive(chat).Keys == old(GetActive(chat)).Keys + {handler}
    {
      var handlers := if chat in active then active[chat] else map[];
      active := active[chat := handlers[handler := state]];
    }

    /**
     * `end_conversation`: drops one handler, and the chat with it when that
     * was its last handler; a pair that is not active is left alone.
     */
    method End(chat: ChatId, handler: HandlerName)
      requires Valid()
      modifies this
      ensures Valid()
      ensures !old(IsActive(chat, handler)) ==> active == old(active)
      ensures old(IsActive(chat, handler)) ==>
        var rest := old(active[chat]) - {handler};
        active == if |rest| == 0 then old(active) - {chat} else old(active)[chat := rest]
      ensures !IsActive(chat, handler)
      ensures forall h :: h != handler && old(IsActive(chat, h)) ==>
        IsActive(chat, h) && GetActive(chat)[h] == old(GetActive(chat)[h])
      ensures forall c :: c != chat ==> GetActive(c) == old(GetActive(c))
    {
      if chat in active && handler in active[chat] {
        var rest := active[chat] - {handler};
        if |rest| == 0 {
          active := active - {chat};
        } else {
          active := active[chat := rest];
        }
      }
    }

    /** `end_all_conversations`: drops the chat and returns the handlers it had. */
    method EndAll(chat: ChatId) returns (ended: set<HandlerName>)
      requires Valid()
      modifies this
      ensures Valid()
      ensures ended == old(GetActive(chat)).Keys
      ensures active == old(active) - {chat}
      ensures !HasActive(chat)
    {
      ended := {};
      if chat in active {
        ended := active[chat].Keys;
        active := active - {chat};
      }
    }

    /**
     * `get_active_conversations`: the chat's handlers, or the empty map for
     * an unknown chat (which is not inserted).
     */
    function GetActive(chat: ChatId): (r: map<HandlerName, S>)
      reads this
      ensures chat !in active ==> r == map[]
      ensures chat in active ==> r == active[chat]
    {
      if chat in active then active[chat] else map[]
    }

    /**
     * `is_conversation_active`: the handler is in the chat's map, as
     * `get_active_conversations` shows it; an unknown chat has none.
     */
    predicate IsActive(chat: ChatId, handler: HandlerName): (r: bool)
      reads this
      ensures r <==> handler in GetActive(chat)
      ensures chat !in active ==> !r
    {
      chat in active && handler in active[chat]
    }

    /**
     * `has_active_conversations`: some handler is active; under the
     * invariant, exactly the chats that are keys.
     */
    function HasActive(chat: ChatId): (r: bool)
      reads this
      ensures r <==> exists h :: IsActive(chat, h)
      ensures Valid() ==> (r <==> chat in active)
    {
      var r := chat in active && |active[chat]| > 0;
      assert r ==> var h :| h in active[chat]; IsActive(chat, h);
      r
    }
  }
}
