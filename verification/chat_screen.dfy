/** The state-changing handlers of the chat screen (Pages/Mensaje.js): one
    refresh tick, selection of the deep-linked chat, `enviarMensaje` with its
    optimistic update, and the preview line of the chat list. */
module ChatScreen {

  import opened Common
  import opened Seqs
  import opened Text
  import opened Messages
  import opened Grouping

  /** The screen's React state: `chats`, `selectedChat` and `nuevoMensaje`. */
  datatype Screen = Screen(chats: seq<Chat>, selected: Option<Chat>, draft: string)

  function HasId(chatId: string): Chat -> bool {
    (c: Chat) => c.chatId == chatId
  }

  /** `route.params?.chatId` as a condition: a missing or empty id is falsy. */
  function DeepLink(param: Option<string>): (r: Option<string>)
    ensures r.Some? <==> param.Some? && param.value != ""
    ensures r.Some? ==> r.value == param.value
  {
    if param.Some? && param.value != "" then param else None
  }

  /** The chat selected after a refresh: with a deep-linked id, the first
      listed chat carrying it, or a fresh empty chat for it; without one, the
      current selection. */
  function SelectChat(chats: seq<Chat>, param: Option<string>, current: Option<Chat>): (r: Option<Chat>)
    ensures param.None? || param.value == "" ==> r == current
    ensures param.Some? && param.value != "" ==> r.Some? && r.value.chatId == param.value
    ensures param.Some? && param.value != "" && (exists i :: 0 <= i < |chats| && chats[i].chatId == param.value) ==>
      exists i :: 0 <= i < |chats| && r.value == chats[i]
        && forall j :: 0 <= j < i ==> chats[j].chatId != param.value
    ensures param.Some? && param.value != "" && (forall i :: 0 <= i < |chats| ==> chats[i].chatId != param.value) ==>
      r.value.mensajes == []
  {
    match DeepLink(param)
    case None => current
    case Some(id) =>
      match FindIndex(chats, HasId(id))
      case Some(i) => Some(chats[i])
      case None => Some(Chat(id, []))
  }

  /** One tick of the polling loop: with a profile and a successful fetch the
      chat list is rebuilt from scratch and the deep link re-selected; with no
      profile, or when the fetch throws, nothing changes. */
  function Refresh(s: Screen, perfil: Option<Profile>, fetched: Fetch<seq<Message>>,
                   param: Option<string>): (r: Screen)
    ensures perfil.None? || fetched.FetchFailed? ==> r == s
    ensures perfil.Some? && fetched.Fetched? ==>
      && r.chats == GroupChats(fetched.data, perfil.value.correo)
      && r.selected == SelectChat(r.chats, param, s.selected)
    ensures r.draft == s.draft
  {
    if perfil.None? || fetched.FetchFailed? then s
    else
      var chats := GroupChats(fetched.data, perfil.value.correo);
      Screen(chats, SelectChat(chats, param, s.selected), s.draft)
  }

  /** `chats.map(chat => chat.chatId === updated.chatId ? updated : chat)`. */
  function ReplaceChat(chats: seq<Chat>, updated: Chat): (r: seq<Chat>)
    ensures |r| == |chats|
    ensures forall i :: 0 <= i < |r| ==>
      r[i] == if chats[i].chatId == updated.chatId then updated else chats[i]
  {
    seq(|chats|, i requires 0 <= i < |chats| =>
      if chats[i].chatId == updated.chatId then updated else chats[i])
  }

  /** A send attempt: the screen afterwards and the message POSTed, if any. */
  datatype SendResult = SendResult(screen: Screen, posted: Option<Message>)

  /** `enviarMensaje`: a blank draft or no selected chat returns before any
      request; otherwise the message from the local user to the selected chat
      is POSTed, and only a 201 applies the optimistic update to the selected
      chat and to the chat list and clears the draft. */
  function Send(s: Screen, me: string, now: int, outcome: HttpOutcome): (r: SendResult)
    ensures Blank(s.draft) || s.selected.None? ==> r == SendResult(s, None)
    ensures !Blank(s.draft) && s.selected.Some? ==>
      r.posted == Some(Message(me, s.selected.value.chatId, s.draft, now))
    ensures !Created(outcome) ==> r.screen == s
    ensures r.posted.Some? && Created(outcome) ==>
      var sel := s.selected.value;
      && r.screen.selected.Some?
      && r.screen.selected.value.chatId == sel.chatId
      && multiset(r.screen.selected.value.mensajes) == multiset(sel.mensajes) + multiset{r.posted.value}
      && SortedByFecha(r.screen.selected.value.mensajes)
      && (forall t :: Stamped(r.screen.selected.value.mensajes, t) == Stamped(sel.mensajes + [r.posted.value], t))
      && r.screen.chats == ReplaceChat(s.chats, r.screen.selected.value)
      && r.screen.draft == ""
  {
    TrimEmptyIffBlank(s.draft);
    if Trim(s.draft) == "" || s.selected.None? then SendResult(s, None)
    else
      var sel := s.selected.value;
      var mensaje := Message(me, sel.chatId, s.draft, now);
      if Created(outcome) then
        SortPermutes(sel.mensajes + [mensaje]);
        SortOrders(sel.mensajes + [mensaje]);
        SortStableAll(sel.mensajes + [mensaje]);
        var updated := Chat(sel.chatId, SortByFecha(sel.mensajes + [mensaje]));
        SendResult(Screen(ReplaceChat(s.chats, updated), Some(updated), ""), Some(mensaje))
      else SendResult(s, Some(mensaje))
  }

  /** When no listed chat has the selected id the optimistic update leaves the list as it was. */
  lemma SendWithoutListedChat(s: Screen, me: string, now: int, outcome: HttpOutcome)
    requires s.selected.Some?
    requires forall i :: 0 <= i < |s.chats| ==> s.chats[i].chatId != s.selected.value.chatId
    ensures Send(s, me, now, outcome).screen.chats == s.chats
  {
  }

  /** A message stamped no earlier than the chat's messages lands last, and
      the earlier ones stay in place. */
  lemma SendAppendsNewest(s: Screen, me: string, now: int)
    requires !Blank(s.draft) && s.selected.Some?
    requires SortedByFecha(s.selected.value.mensajes)
    requires forall i :: 0 <= i < |s.selected.value.mensajes| ==> s.selected.value.mensajes[i].fecha <= now
    ensures var r := Send(s, me, now, Response(201));
      r.screen.selected.value.mensajes == s.selected.value.mensajes + [r.posted.value]
  {
    SortAppendNewest(s.selected.value.mensajes, Message(me, s.selected.value.chatId, s.draft, now));
  }

  /** The screen invariant: a well-formed list, and a selected chat whose
      messages are sorted and filed under its id. */
  predicate Consistent(s: Screen, me: string) {
    && ChatListWellFormed(s.chats, me)
    && (s.selected.Some? ==> ChatWellFormed(s.selected.value, me))
  }

  /** A successful refresh yields a consistent screen whatever the chat list
      before, provided the selection it keeps was well-formed. */
  lemma RefreshConsistent(s: Screen, perfil: Profile, all: seq<Message>, param: Option<string>)
    requires s.selected.Some? ==> ChatWellFormed(s.selected.value, perfil.correo)
    ensures Consistent(Refresh(s, Some(perfil), Fetched(all), param), perfil.correo)
  {
    GroupWellFormed(all, perfil.correo);
  }

  /** The optimistic update of a well-formed chat is well-formed and non-empty. */
  lemma AppendedChatWellFormed(sel: Chat, mensaje: Message, me: string)
    requires ChatWellFormed(sel, me)
    requires mensaje.idEnviado == me && mensaje.idRecibido == sel.chatId
    ensures var u := Chat(sel.chatId, SortByFecha(sel.mensajes + [mensaje]));
      ChatWellFormed(u, me) && u.mensajes != []
  {
    var grown := sel.mensajes + [mensaje];
    var sorted := SortByFecha(grown);
    SortPermutes(grown);
    SortOrders(grown);
    forall j | 0 <= j < |grown| ensures Involves(grown[j], me) && ChatKey(grown[j], me) == sel.chatId {
      if j < |sel.mensajes| {
        assert grown[j] == sel.mensajes[j];
      }
    }
    forall j | 0 <= j < |sorted| ensures Involves(sorted[j], me) && ChatKey(sorted[j], me) == sel.chatId {
      assert sorted[j] in multiset(grown);
    }
    assert |sorted| == |multiset(grown)|;
  }

  /** Replacing a chat by a well-formed, non-empty chat with the same id keeps the list well-formed. */
  lemma ReplaceWellFormed(chats: seq<Chat>, u: Chat, me: string)
    requires ChatListWellFormed(chats, me)
    requires ChatWellFormed(u, me) && u.mensajes != []
    ensures ChatListWellFormed(ReplaceChat(chats, u), me)
  {
  }

  /** Sending keeps the screen consistent, so every listed chat still has a
      first message for its preview. */
  lemma SendConsistent(s: Screen, me: string, now: int, outcome: HttpOutcome)
    requires Consistent(s, me)
    ensures Consistent(Send(s, me, now, outcome).screen, me)
  {
    var r := Send(s, me, now, outcome);
    if r.posted.Some? && Created(outcome) {
      AppendedChatWellFormed(s.selected.value, r.posted.value, me);
      ReplaceWellFormed(s.chats, r.screen.selected.value, me);
    }
  }

  const PreviewLength: nat := 50

  /** The chat list's preview of a message text: at most 50 characters kept,
      "..." appended when something was cut. */
  function Preview(texto: string): (r: string)
    ensures |r| <= PreviewLength + 3
    ensures |texto| <= PreviewLength ==> r == texto
    ensures |texto| > PreviewLength ==>
      |r| == PreviewLength + 3 && r[..PreviewLength] == texto[..PreviewLength] && r[PreviewLength..] == "..."
  {
    if |texto| > PreviewLength then texto[..PreviewLength] + "..." else texto
  }

  /** The preview line of a listed chat: taken from its first message, which
      in a chat sorted by `fecha` is one of its oldest. */
  function ChatPreview(c: Chat): (r: string)
    requires c.mensajes != []
    ensures SortedByFecha(c.mensajes) ==>
      exists i :: 0 <= i < |c.mensajes| && r == Preview(c.mensajes[i].texto)
        && forall j :: 0 <= j < |c.mensajes| ==> c.mensajes[i].fecha <= c.mensajes[j].fecha
  {
    Preview(c.mensajes[0].texto)
  }

  const ExampleHi := Message("A", "B", "hi", 1)
  const ExampleHey := Message("B", "A", "hey", 2)

  lemma ExampleKeys()
    ensures ChatKeys([ExampleHi, ExampleHey], "A") == ["B"]
  {
    assert ChatKey(ExampleHi, "A") == "B";
    assert ChatKey(ExampleHey, "A") == "B";
    ChatKeysSnoc([], ExampleHi, "A");
    ChatKeysSnoc([ExampleHi], ExampleHey, "A");
    assert [ExampleHi] == [] + [ExampleHi];
  }

  lemma ExampleSorted()
    ensures SortByFecha([ExampleHi, ExampleHey]) == [ExampleHi, ExampleHey]
  {
    SortKeepsSorted([ExampleHi, ExampleHey]);
  }

  lemma ExampleBuckets()
    ensures Kept([ExampleHi, ExampleHey], "A") == [ExampleHi, ExampleHey]
    ensures Bucket([ExampleHi, ExampleHey], "A", "B") == [ExampleHi, ExampleHey]
  {
    var all := [ExampleHi, ExampleHey];
    assert InvolvesMe("A")(ExampleHi) && InvolvesMe("A")(ExampleHey);
    FilterAllOrNone(all, InvolvesMe("A"));
    assert KeyedTo("A", "B")(ExampleHi) && KeyedTo("A", "B")(ExampleHey);
    FilterAllOrNone(all, KeyedTo("A", "B"));
  }

  /** Worked case: A and B exchange "hi" then "hey"; A sees one chat with B,
      "hi" first. */
  lemma TwoMessageExample()
    ensures GroupChats([ExampleHi, ExampleHey], "A") == [Chat("B", [ExampleHi, ExampleHey])]
  {
    var all := [ExampleHi, ExampleHey];
    ExampleBuckets();
    ExampleKeys();
    ExampleSorted();
    var g := GroupChats(all, "A");
    assert |g| == 1;
    assert g[0] == Chat("B", SortByFecha(Bucket(all, "A", "B")));
  }
}
