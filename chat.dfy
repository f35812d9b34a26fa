/** The chat routes (`/api/chat`): listing a caller's conversations, listing
    the messages of an owned conversation, and sending a message, which
    creates or reuses a conversation, stores the user message, sends the
    newest 20 messages plus the new content to the text-generation provider
    and stores the provider's answer. The database is an in-memory store;
    row ids and `defaultNow()` timestamps come from two counters. */
module Chat {
  import opened Http
  import Seqs

  /** A row id. The schema draws uuids at random; the store hands out values
      of a counter instead, so two rows never share an id. */
  type Id = nat

  /** The `message_role` enum of the schema. */
  datatype Role = UserRole | AssistantRole | SystemRole

  datatype Conversation = Conversation(
    id: Id,
    userId: UserId,
    title: Option<string>,
    createdAt: nat,
    updatedAt: nat)

  /** A message row; `citations` is never written on these routes and is left out. */
  datatype Message = Message(
    id: Id,
    conversationId: Id,
    role: Role,
    content: string,
    createdAt: nat)

  /** One entry of the provider request's `contents`: a role and its parts. */
  datatype TurnRole = UserTurn | ModelTurn
  datatype Part = TextPart(text: string)
  datatype Turn = Turn(role: TurnRole, parts: seq<Part>)

  /** What the provider call gives back: the response text, or a thrown error. */
  datatype Generation = Generated(text: string) | GenerationFailed

  /** The validated POST body: `conversationId` optional, `content` a string. */
  datatype SendRequest = SendRequest(conversationId: Option<Id>, content: string)

  /** The 200 body of a successful send. */
  datatype Sent = Sent(conversationId: Id, userMessage: Message, assistantMessage: Message)

  const HistoryLimit: nat := 20
  const TitleLength: nat := 50
  const Ellipsis := "..."

  /** Title of a new conversation: at most 50 characters of the content,
      always followed by "...", even when the content is shorter. */
  function Title(content: string): (t: string)
    ensures |t| == (if |content| < TitleLength then |content| else TitleLength) + |Ellipsis|
    ensures t[..|t| - |Ellipsis|] == content[..|t| - |Ellipsis|]
    ensures t[|t| - |Ellipsis|..] == Ellipsis
  {
    (if |content| < TitleLength then content else content[..TitleLength]) + Ellipsis
  }

  lemma ShortContentTitle(content: string)
    requires |content| <= TitleLength
    ensures Title(content) == content + "..."
  {
  }

  lemma LongContentTitle(content: string)
    requires |content| >= TitleLength
    ensures Title(content) == content[..TitleLength] + Ellipsis
  {
  }

  /** The provider turn for a stored message. */
  function TurnOf(m: Message): Turn {
    Turn(if m.role == UserRole then UserTurn else ModelTurn, [TextPart(m.content)])
  }

  /** The extra user turn the handler appends after the history. */
  function UserText(content: string): Turn {
    Turn(UserTurn, [TextPart(content)])
  }

  /** `contents` of the provider request: the history mapped to turns, then
      one more user turn holding the content. */
  function BuildRequest(history: seq<Message>, content: string): seq<Turn> {
    seq(|history|, i requires 0 <= i < |history| => TurnOf(history[i])) + [UserText(content)]
  }

  /** Each history message becomes exactly one turn, in order: "user" for a
      stored user message and "model" for every other role, with a single
      text part holding the content; the content follows as a last user turn. */
  lemma RequestTurns(history: seq<Message>, content: string)
    ensures |BuildRequest(history, content)| == |history| + 1
    ensures BuildRequest(history, content)[|history|] == Turn(UserTurn, [TextPart(content)])
    ensures forall i :: 0 <= i < |history| ==>
      && (BuildRequest(history, content)[i].role == UserTurn <==> history[i].role == UserRole)
      && BuildRequest(history, content)[i].parts == [TextPart(history[i].content)]
  {
  }

  /** `eq(messages.conversationId, cid)` as a row test. */
  function InConversation(cid: Id): Message -> bool {
    (m: Message) => m.conversationId == cid
  }

  /** The messages of one conversation, oldest first (store order). */
  function OfConversation(msgs: seq<Message>, cid: Id): seq<Message> {
    Seqs.Filter(msgs, InConversation(cid))
  }

  /** `findMany({ where: conversationId, orderBy: desc(createdAt) })`. */
  function NewestFirst(msgs: seq<Message>, cid: Id): seq<Message> {
    Seqs.Reverse(OfConversation(msgs, cid))
  }

  /** The same query with `limit`. */
  function Recent(msgs: seq<Message>, cid: Id, limit: nat): seq<Message> {
    var all := NewestFirst(msgs, cid);
    all[..if |all| < limit then |all| else limit]
  }

  /** The history the handler forwards: the 20-row query, reversed. */
  function HistoryFor(msgs: seq<Message>, cid: Id): seq<Message> {
    Seqs.Reverse(Recent(msgs, cid, HistoryLimit))
  }

  function ProviderRequest(msgs: seq<Message>, cid: Id, content: string): seq<Turn> {
    BuildRequest(HistoryFor(msgs, cid), content)
  }

  /** `findMany({ where: userId, orderBy: desc(updatedAt) })` over rows kept
      in insertion order. */
  function OwnedNewestFirst(convs: seq<Conversation>, user: UserId): seq<Conversation> {
    Seqs.Reverse(Seqs.Filter(convs, OwnedBy(user)))
  }

  /** `eq(conversations.userId, user)` as a row test. */
  function OwnedBy(user: UserId): Conversation -> bool {
    (c: Conversation) => c.userId == user
  }

  /** `findFirst({ where: eq(conversations.id, id) })`. */
  function FindConversation(convs: seq<Conversation>, id: Id): (r: Option<Conversation>)
    ensures r.Some? ==> r.value in convs && r.value.id == id
    ensures r.None? <==> forall i :: 0 <= i < |convs| ==> convs[i].id != id
  {
    if convs == [] then None
    else if convs[0].id == id then Some(convs[0])
    else FindConversation(convs[1..], id)
  }

  /** The ownership test shared by the message list and the send handler:
      a missing conversation and another user's conversation both fail it. */
  predicate Owns(convs: seq<Conversation>, id: Id, user: UserId) {
    var found := FindConversation(convs, id);
    found.Some? && found.value.userId == user
  }

  function CreatedAt(m: Message): int { m.createdAt }
  function MessageKey(m: Message): int { m.id }
  function UpdatedAt(c: Conversation): int { c.updatedAt }
  function ConversationKey(c: Conversation): int { c.id }

  /** The window is the newest `min(20, n)` of the conversation's `n`
      messages, oldest first: older messages drop out of it. */
  lemma {:induction false} HistoryIsNewestWindow(msgs: seq<Message>, cid: Id)
    ensures var all := OfConversation(msgs, cid);
            var k := if |all| < HistoryLimit then |all| else HistoryLimit;
            HistoryFor(msgs, cid) == all[|all| - k..]
  {
    var all := OfConversation(msgs, cid);
    var k := if |all| < HistoryLimit then |all| else HistoryLimit;
    Seqs.ReverseTake(all, k);
  }

  /** A window taken from rows in creation order is in chronological order. */
  lemma {:induction false} HistoryChronological(msgs: seq<Message>, cid: Id)
    requires Seqs.StrictlyIncreasing(msgs, CreatedAt)
    ensures Seqs.StrictlyIncreasing(HistoryFor(msgs, cid), CreatedAt)
  {
    Seqs.FilterIncreasing(msgs, InConversation(cid), CreatedAt);
    HistoryIsNewestWindow(msgs, cid);
  }

  /** A message stored for a conversation joins the end of its transcript. */
  lemma ConversationAppend(msgs: seq<Message>, m: Message)
    ensures OfConversation(msgs + [m], m.conversationId) == OfConversation(msgs, m.conversationId) + [m]
  {
    Seqs.FilterAppend(msgs, m, InConversation(m.conversationId));
  }

  /** The message just stored is the newest entry of the history window. */
  lemma SavedMessageEndsHistory(msgs: seq<Message>, m: Message)
    ensures var h := HistoryFor(msgs + [m], m.conversationId);
            1 <= |h| <= HistoryLimit && h[|h| - 1] == m
  {
    ConversationAppend(msgs, m);
    HistoryIsNewestWindow(msgs + [m], m.conversationId);
  }

  /** Once the user message is stored, it is the last history entry, so the
      content reaches the provider twice: as the last history turn and as
      the extra final turn. The request has at most 21 turns. */
  lemma RequestAfterSave(msgs: seq<Message>, m: Message)
    requires m.role == UserRole
    ensures var req := ProviderRequest(msgs + [m], m.conversationId, m.content);
            && 2 <= |req| <= HistoryLimit + 1
            && req[|req| - 1] == UserText(m.content)
            && req[|req| - 2] == UserText(m.content)
  {
    SavedMessageEndsHistory(msgs, m);
    var h := HistoryFor(msgs + [m], m.conversationId);
    RequestTurns(h, m.content);
    assert BuildRequest(h, m.content)[|h| - 1] == TurnOf(h[|h| - 1]);
  }

  lemma EmptyTranscript(msgs: seq<Message>, cid: Id)
    requires forall i :: 0 <= i < |msgs| ==> msgs[i].conversationId != cid
    ensures OfConversation(msgs, cid) == []
  {
    Seqs.FilterNone(msgs, InConversation(cid));
  }

  /** First message of a new conversation: the request is that content twice. */
  lemma FirstMessageRequest(msgs: seq<Message>, m: Message)
    requires m.role == UserRole
    requires forall i :: 0 <= i < |msgs| ==> msgs[i].conversationId != m.conversationId
    ensures ProviderRequest(msgs + [m], m.conversationId, m.content)
            == [UserText(m.content), UserText(m.content)]
  {
    var cid := m.conversationId;
    ConversationAppend(msgs, m);
    EmptyTranscript(msgs, cid);
    HistoryIsNewestWindow(msgs + [m], cid);
    var h := HistoryFor(msgs + [m], cid);
    assert h == [m];
    RequestTurns(h, m.content);
    assert BuildRequest(h, m.content)[0] == TurnOf(m);
  }

  /** Some stored conversation has the id: the foreign key from a message to
      its conversation. It holds exactly when `FindConversation` finds a row
      (`FindConversation`'s second `ensures`). */
  ghost predicate HasConversation(convs: seq<Conversation>, id: Id) {
    exists j :: 0 <= j < |convs| && convs[j].id == id
  }

  /** The chat tables of the database, with the two counters standing for
      uuid generation and `defaultNow()`. */
  class ChatStore {
    var conversations: seq<Conversation>
    var messages: seq<Message>
    var nextId: nat
    var clock: nat

    /** Ids are unique, rows are kept in creation order, every message belongs
        to a stored conversation, and a conversation's `updatedAt` is its
        creation time (no route refreshes it). */
    ghost predicate Valid()
      reads this
    {
      && Seqs.StrictlyIncreasing(conversations, ConversationKey)
      && Seqs.StrictlyIncreasing(conversations, UpdatedAt)
      && Seqs.StrictlyIncreasing(messages, MessageKey)
      && Seqs.StrictlyIncreasing(messages, CreatedAt)
      && (forall i :: 0 <= i < |conversations| ==>
            && conversations[i].id < nextId
            && conversations[i].updatedAt == conversations[i].createdAt < clock)
      && (forall i :: 0 <= i < |messages| ==>
            && messages[i].id < nextId
            && messages[i].createdAt < clock
            && HasConversation(conversations, messages[i].conversationId))
    }

    constructor ()
      ensures Valid() && conversations == [] && messages == []
    {
      conversations, messages := [], [];
      nextId, clock := 0, 0;
    }

    /** GET /conversations. */
    method ListConversations(caller: Option<UserId>) returns (r: Reply<seq<Conversation>>)
      requires Valid()
      ensures caller.None? ==> r == Fail(Unauthorized, UnauthorizedError)
      ensures caller.Some? ==> r.Ok?
      ensures caller.Some? ==> forall c :: c in r.value <==> c in conversations && c.userId == caller.value
      ensures caller.Some? ==> Seqs.StrictlyDecreasing(r.value, UpdatedAt)
    {
      if caller.None? {
        return Fail(Unauthorized, UnauthorizedError);
      }
      var owned := Seqs.Filter(conversations, OwnedBy(caller.value));
      Seqs.FilterIncreasing(conversations, OwnedBy(caller.value), UpdatedAt);
      Seqs.ReverseDecreasing(owned, UpdatedAt);
      Seqs.ReverseMembers(owned);
      r := Ok(OwnedNewestFirst(conversations, caller.value));
    }

    /** GET /:conversationId/messages. */
    method ListMessages(caller: Option<UserId>, conversationId: Id) returns (r: Reply<seq<Message>>)
      requires Valid()
      ensures caller.None? ==> r == Fail(Unauthorized, UnauthorizedError)
      ensures caller.Some? && !Owns(conversations, conversationId, caller.value) ==>
                r == Fail(NotFound, ConversationNotFoundError)
      ensures caller.Some? && Owns(conversations, conversationId, caller.value) ==>
                && r.Ok?
                && (forall m :: m in r.value <==> m in messages && m.conversationId == conversationId)
                && Seqs.StrictlyDecreasing(r.value, CreatedAt)
    {
      if caller.None? {
        return Fail(Unauthorized, UnauthorizedError);
      }
      var conversation := FindConversation(conversations, conversationId);
      if conversation.None? || conversation.value.userId != caller.value {
        return Fail(NotFound, ConversationNotFoundError);
      }
      Seqs.FilterIncreasing(messages, InConversation(conversationId), CreatedAt);
      Seqs.ReverseDecreasing(OfConversation(messages, conversationId), CreatedAt);
      Seqs.ReverseMembers(OfConversation(messages, conversationId));
      r := Ok(NewestFirst(messages, conversationId));
    }

    /** Stores a row in the messages table. */
    method InsertMessage(cid: Id, role: Role, content: string) returns (m: Message)
      requires Valid() && HasConversation(conversations, cid)
      modifies this
      ensures Valid()
      ensures m.conversationId == cid && m.role == role && m.content == content
      ensures messages == old(messages) + [m] && conversations == old(conversations)
    {
      m := Message(nextId, cid, role, content, clock);
      Seqs.AppendIncreasing(messages, m, MessageKey);
      Seqs.AppendIncreasing(messages, m, CreatedAt);
      messages := messages + [m];
      nextId, clock := nextId + 1, clock + 1;
    }

    /** Stores a row in the conversations table. */
    method CreateConversation(user: UserId, title: string) returns (c: Conversation)
      requires Valid()
      modifies this
      ensures Valid()
      ensures c == Conversation(old(nextId), user, Some(title), old(clock), old(clock))
      ensures forall i :: 0 <= i < |old(conversations)| ==> old(conversations)[i].id != c.id
      ensures conversations == old(conversations) + [c] && messages == old(messages)
      ensures nextId > old(nextId)
    {
      c := Conversation(nextId, user, Some(title), clock, clock);
      Seqs.AppendIncreasing(conversations, c, ConversationKey);
      Seqs.AppendIncreasing(conversations, c, UpdatedAt);
      forall i | 0 <= i < |messages|
        ensures HasConversation(conversations + [c], messages[i].conversationId)
      {
        var j :| 0 <= j < |conversations| && conversations[j].id == messages[i].conversationId;
        assert (conversations + [c])[j] == conversations[j];
      }
      conversations := conversations + [c];
      nextId, clock := nextId + 1, clock + 1;
      assert conversations[|conversations| - 1] == c;
    }

    /** The part of POST / after the conversation is resolved: the user
        message is stored before the provider is asked, the provider gets the
        newest 20 messages (the one just stored among them) in chronological
        order plus the content, and the assistant message is stored only when
        the provider answers. */
    method Exchange(cid: Id, content: string, generate: seq<Turn> -> Generation)
      returns (r: Reply<Sent>)
      requires Valid() && HasConversation(conversations, cid)
      modifies this
      ensures Valid() && conversations == old(conversations)
      ensures var n := |old(messages)|;
              && n < |messages|
              && messages[..n] == old(messages)
              && messages[n].conversationId == cid
              && messages[n].role == UserRole
              && messages[n].content == content
              && var reply := generate(ProviderRequest(messages[..n + 1], cid, content));
                 && (reply.GenerationFailed? ==>
                       r == Fail(ServerError, GenerateFailedError) && |messages| == n + 1)
                 && (reply.Generated? ==>
                       && |messages| == n + 2
                       && messages[n + 1].conversationId == cid
                       && messages[n + 1].role == AssistantRole
                       && messages[n + 1].content == reply.text
                       && r == Ok(Sent(cid, messages[n], messages[n + 1])))
    {
      var userMsg := InsertMessage(cid, UserRole, content);
      ghost var saved := messages;

      var reply := generate(ProviderRequest(messages, cid, content));
      assert messages[..|old(messages)| + 1] == saved;
      if reply.GenerationFailed? {
        return Fail(ServerError, GenerateFailedError);
      }
      var assistantMsg := InsertMessage(cid, AssistantRole, reply.text);
      assert messages[..|old(messages)| + 1] == saved;
      r := Ok(Sent(cid, userMsg, assistantMsg));
    }

    /** POST / : the request body was validated first, then the session is
        checked, the conversation resolved, and the exchange with the
        provider run; `generate` is the provider call. */
    method SendMessage(caller: Option<UserId>, req: SendRequest, generate: seq<Turn> -> Generation)
      returns (r: Reply<Sent>)
      requires Valid()
      modifies this
      ensures Valid()
      ensures |req.content| == 0 ==> r == Fail(BadRequest, InvalidBodyError)
      ensures |req.content| > 0 && caller.None? ==> r == Fail(Unauthorized, UnauthorizedError)
      ensures |req.content| > 0 && caller.Some? && req.conversationId.Some?
                && !Owns(old(conversations), req.conversationId.value, caller.value) ==>
                r == Fail(NotFound, ConversationNotFoundError)
      ensures r.Fail? && r.status != ServerError ==>
                conversations == old(conversations) && messages == old(messages)
      // a new conversation is created only when no id was supplied
      ensures |req.content| > 0 && caller.Some? && req.conversationId.None? ==>
                conversations == old(conversations) +
                  [Conversation(old(nextId), caller.value, Some(Title(req.content)), old(clock), old(clock))]
                && (forall i :: 0 <= i < |old(conversations)| ==> old(conversations)[i].id != old(nextId))
      ensures req.conversationId.Some? ==> conversations == old(conversations)
      // the accepted case: user message first, assistant message only on success
      ensures |req.content| > 0 && caller.Some?
              && (req.conversationId.None? || Owns(old(conversations), req.conversationId.value, caller.value)) ==>
                var cid := if req.conversationId.Some? then req.conversationId.value else old(nextId);
                var n := |old(messages)|;
                && n < |messages|
                && messages[..n] == old(messages)
                && messages[n].conversationId == cid
                && messages[n].role == UserRole
                && messages[n].content == req.content
                && var reply := generate(ProviderRequest(messages[..n + 1], cid, req.content));
                   && (reply.GenerationFailed? ==>
                         r == Fail(ServerError, GenerateFailedError) && |messages| == n + 1)
                   && (reply.Generated? ==>
                         && |messages| == n + 2
                         && messages[n + 1].conversationId == cid
                         && messages[n + 1].role == AssistantRole
                         && messages[n + 1].content == reply.text
                         && r == Ok(Sent(cid, messages[n], messages[n + 1])))
    {
      if |req.content| == 0 {
        return Fail(BadRequest, InvalidBodyError);
      }
      if caller.None? {
        return Fail(Unauthorized, UnauthorizedError);
      }
      var user := caller.value;
      var conversationId: Id;
      if req.conversationId.None? {
        var conv := CreateConversation(user, Title(req.content));
        conversationId := conv.id;
        assert conversations[|conversations| - 1] == conv;
      } else {
        var conversation := FindConversation(conversations, req.conversationId.value);
        if conversation.None? || conversation.value.userId != user {
          return Fail(NotFound, ConversationNotFoundError);
        }
        conversationId := req.conversationId.value;
        ghost var j :| 0 <= j < |conversations| && conversations[j] == conversation.value;
      }
      r := Exchange(conversationId, req.content, generate);
    }
  }
}
