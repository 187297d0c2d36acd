/** The fetch-and-group body of `cargarMensajes` (Pages/Mensaje.js): keep the
    messages that involve the local e-mail, key each by its counterpart, group
    them in a dictionary whose keys keep insertion order, and sort each group
    by `fecha`. */
module Grouping {

  import opened Common
  import opened Seqs
  import opened Messages

  predicate Involves(m: Message, me: string) {
    m.idEnviado == me || m.idRecibido == me
  }

  function InvolvesMe(me: string): Message -> bool {
    (m: Message) => Involves(m, me)
  }

  /** The chat a message is filed under: the recipient when the local user
      sent it, the sender otherwise. */
  function ChatKey(m: Message, me: string): string {
    if m.idEnviado == me then m.idRecibido else m.idEnviado
  }

  /** For a message involving the local user, the chat key and the local
      e-mail are exactly the message's two participants; so a message the
      user sent to themself is filed under their own e-mail. */
  lemma ChatKeyIsCounterpart(m: Message, me: string)
    requires Involves(m, me)
    ensures multiset{m.idEnviado, m.idRecibido} == multiset{me, ChatKey(m, me)}
    ensures ChatKey(m, me) == me <==> m.idEnviado == m.idRecibido
  {
  }

  function KeyedTo(me: string, k: string): Message -> bool {
    (m: Message) => ChatKey(m, me) == k
  }

  /** `mensajesFiltrados`: the fetched messages the local user sent or received. */
  function Kept(all: seq<Message>, me: string): seq<Message> {
    Filter(all, InvolvesMe(me))
  }

  /** A message is kept exactly when the local e-mail is its sender or
      recipient, and the kept messages keep their fetched order. */
  lemma KeptSpec(a: seq<Message>, b: seq<Message>, me: string)
    ensures forall m :: m in Kept(a, me) <==> m in a && (m.idEnviado == me || m.idRecibido == me)
    ensures Kept(a + b, me) == Kept(a, me) + Kept(b, me)
  {
    FilterMembership(a, InvolvesMe(me));
    FilterConcat(a, b, InvolvesMe(me));
  }

  /** `chatDict[k]` before sorting: the messages filed under k, in push order. */
  function Bucket(ms: seq<Message>, me: string, k: string): seq<Message> {
    Filter(ms, KeyedTo(me, k))
  }

  predicate Distinct(ks: seq<string>) {
    forall i, j :: 0 <= i < j < |ks| ==> ks[i] != ks[j]
  }

  /** `Object.keys(chatDict)`: each chat key once, in the order keys were first inserted. */
  function ChatKeys(ms: seq<Message>, me: string): (ks: seq<string>)
    ensures Distinct(ks)
  {
    if ms == [] then []
    else
      var init := ms[..|ms| - 1];
      var k := ChatKey(ms[|ms| - 1], me);
      var ks := ChatKeys(init, me);
      assert ms == init + [ms[|ms| - 1]];
      if k in ks then ks else ks + [k]
  }

  /** Index of the first message filed under k, if any. */
  function FirstSeen(ms: seq<Message>, me: string, k: string): Option<nat> {
    FindIndex(ms, KeyedTo(me, k))
  }

  lemma ChatKeysSnoc(ms: seq<Message>, m: Message, me: string)
    ensures ChatKeys(ms + [m], me) ==
      if ChatKey(m, me) in ChatKeys(ms, me) then ChatKeys(ms, me) else ChatKeys(ms, me) + [ChatKey(m, me)]
  {
    assert (ms + [m])[..|ms|] == ms;
  }

  /** A key is listed exactly when some message is filed under it. */
  lemma {:induction false} FirstSeenIffKey(ms: seq<Message>, me: string, k: string)
    ensures FirstSeen(ms, me, k).Some? <==> k in ChatKeys(ms, me)
    decreases |ms|
  {
    if ms != [] {
      var init := ms[..|ms| - 1];
      var m := ms[|ms| - 1];
      assert ms == init + [m];
      FirstSeenIffKey(init, me, k);
      ChatKeysSnoc(init, m, me);
      FindIndexSnoc(init, m, KeyedTo(me, k));
    }
  }

  /** The listed keys are exactly the keys of the messages. */
  lemma {:induction false} ChatKeysExact(ms: seq<Message>, me: string, k: string)
    ensures k in ChatKeys(ms, me) <==> exists i :: 0 <= i < |ms| && ChatKey(ms[i], me) == k
  {
    FirstSeenIffKey(ms, me, k);
    var f := FirstSeen(ms, me, k);
    if f.Some? {
      assert ChatKey(ms[f.value], me) == k;
    }
  }

  /** A key without messages has an empty bucket. */
  lemma BucketOfNewKey(ms: seq<Message>, me: string, k: string)
    requires k !in ChatKeys(ms, me)
    ensures Bucket(ms, me, k) == []
  {
    FirstSeenIffKey(ms, me, k);
    FilterAllOrNone(ms, KeyedTo(me, k));
  }

  lemma FirstSeenSnocOld(ms: seq<Message>, m: Message, me: string, a: string)
    requires a in ChatKeys(ms, me)
    ensures FirstSeen(ms, me, a).Some?
    ensures FirstSeen(ms + [m], me, a) == FirstSeen(ms, me, a)
  {
    FirstSeenIffKey(ms, me, a);
    FindIndexSnoc(ms, m, KeyedTo(me, a));
  }

  lemma FirstSeenSnocNew(ms: seq<Message>, m: Message, me: string)
    requires ChatKey(m, me) !in ChatKeys(ms, me)
    ensures FirstSeen(ms + [m], me, ChatKey(m, me)) == Some(|ms|)
  {
    FirstSeenIffKey(ms, me, ChatKey(m, me));
    FindIndexSnoc(ms, m, KeyedTo(me, ChatKey(m, me)));
  }

  /** Keys listed in the order of their first message: for i < j the first
      message filed under ks[i] precedes the first filed under ks[j]. */
  predicate InFirstSeenOrder(ks: seq<string>, ms: seq<Message>, me: string) {
    forall i, j :: 0 <= i < j < |ks| ==> SeenBefore(ms, me, ks[i], ks[j])
  }

  /** The first-seen index of ks[i] precedes that of ks[j]. */
  predicate SeenBefore(ms: seq<Message>, me: string, a: string, b: string) {
    && FirstSeen(ms, me, a).Some? && FirstSeen(ms, me, b).Some?
    && FirstSeen(ms, me, a).value < FirstSeen(ms, me, b).value
  }

  lemma FirstAppearanceStep(ms: seq<Message>, m: Message, me: string, i: int, j: int)
    requires InFirstSeenOrder(ChatKeys(ms, me), ms, me)
    requires 0 <= i < j < |ChatKeys(ms + [m], me)|
    ensures SeenBefore(ms + [m], me, ChatKeys(ms + [m], me)[i], ChatKeys(ms + [m], me)[j])
  {
    var old_ks := ChatKeys(ms, me);
    var ks := ChatKeys(ms + [m], me);
    ChatKeysSnoc(ms, m, me);
    assert ks[i] == old_ks[i];
    FirstSeenSnocOld(ms, m, me, ks[i]);
    if j < |old_ks| {
      assert ks[j] == old_ks[j];
      assert SeenBefore(ms, me, old_ks[i], old_ks[j]);
      FirstSeenSnocOld(ms, m, me, ks[j]);
    } else {
      FirstSeenSnocNew(ms, m, me);
    }
  }

  lemma FirstAppearanceSnoc(ms: seq<Message>, m: Message, me: string)
    requires InFirstSeenOrder(ChatKeys(ms, me), ms, me)
    ensures InFirstSeenOrder(ChatKeys(ms + [m], me), ms + [m], me)
  {
    forall i, j | 0 <= i < j < |ChatKeys(ms + [m], me)|
      ensures SeenBefore(ms + [m], me, ChatKeys(ms + [m], me)[i], ChatKeys(ms + [m], me)[j])
    {
      FirstAppearanceStep(ms, m, me, i, j);
    }
  }

  /** Chat keys are listed in first-encounter order. */
  lemma {:induction false} ChatKeysFirstAppearance(ms: seq<Message>, me: string)
    ensures InFirstSeenOrder(ChatKeys(ms, me), ms, me)
    decreases |ms|
  {
    if ms != [] {
      var init := ms[..|ms| - 1];
      var m := ms[|ms| - 1];
      assert ms == init + [m];
      ChatKeysFirstAppearance(init, me);
      FirstAppearanceSnoc(init, m, me);
    }
  }

  /** The chat of key k: its bucket sorted by `fecha`. */
  function ChatFor(kept: seq<Message>, me: string, k: string): Chat {
    Chat(k, SortByFecha(Bucket(kept, me, k)))
  }

  /** What the screen lists: one chat per key, in key order. */
  function GroupChats(all: seq<Message>, me: string): seq<Chat> {
    var kept := Kept(all, me);
    var ks := ChatKeys(kept, me);
    seq(|ks|, i requires 0 <= i < |ks| => ChatFor(kept, me, ks[i]))
  }

  /** A chat whose messages are in `fecha` order and all filed under its id. */
  predicate ChatWellFormed(c: Chat, me: string) {
    && SortedByFecha(c.mensajes)
    && forall i :: 0 <= i < |c.mensajes| ==>
         Involves(c.mensajes[i], me) && ChatKey(c.mensajes[i], me) == c.chatId
  }

  /** A chat list as the grouping produces it: well-formed, non-empty chats with distinct ids. */
  predicate ChatListWellFormed(cs: seq<Chat>, me: string) {
    && (forall i :: 0 <= i < |cs| ==> ChatWellFormed(cs[i], me) && cs[i].mensajes != [])
    && (forall i, j :: 0 <= i < j < |cs| ==> cs[i].chatId != cs[j].chatId)
  }

  /** Exactly the kept messages filed under a chat's id are in that chat, each
      as many times as in the input. */
  lemma GroupMembership(all: seq<Message>, me: string, i: nat, m: Message)
    requires i < |GroupChats(all, me)|
    ensures var c := GroupChats(all, me)[i];
      && (m in c.mensajes <==> m in all && Involves(m, me) && ChatKey(m, me) == c.chatId)
      && multiset(c.mensajes)[m] ==
           if Involves(m, me) && ChatKey(m, me) == c.chatId then multiset(all)[m] else 0
  {
    var kept := Kept(all, me);
    var c := GroupChats(all, me)[i];
    FilterCount(all, InvolvesMe(me), m);
    FilterCount(kept, KeyedTo(me, c.chatId), m);
    SortPermutes(Bucket(kept, me, c.chatId));
    assert multiset(c.mensajes) == multiset(Bucket(kept, me, c.chatId));
  }

  /** The chat built for one key is well-formed and, when the key occurs, non-empty. */
  lemma BucketChatWellFormed(kept: seq<Message>, me: string, k: string)
    requires forall m :: m in kept ==> Involves(m, me)
    ensures ChatWellFormed(Chat(k, SortByFecha(Bucket(kept, me, k))), me)
    ensures k in ChatKeys(kept, me) ==> SortByFecha(Bucket(kept, me, k)) != []
  {
    var b := Bucket(kept, me, k);
    var s := SortByFecha(b);
    SortPermutes(b);
    SortOrders(b);
    FilterMembership(kept, KeyedTo(me, k));
    forall j | 0 <= j < |s| ensures Involves(s[j], me) && ChatKey(s[j], me) == k {
      var x := s[j];
      assert x in multiset(b);
      assert x in b;
      assert x in kept && KeyedTo(me, k)(x);
    }
    FirstSeenIffKey(kept, me, k);
    var f := FirstSeen(kept, me, k);
    if f.Some? {
      assert kept[f.value] in b;
      assert kept[f.value] in multiset(s);
    }
  }

  /** Grouping yields a well-formed list: no chat is empty, ids are distinct,
      every chat is sorted and holds only messages filed under its id. */
  lemma GroupWellFormed(all: seq<Message>, me: string)
    ensures ChatListWellFormed(GroupChats(all, me), me)
  {
    var kept := Kept(all, me);
    var ks := ChatKeys(kept, me);
    var cs := GroupChats(all, me);
    FilterMembership(all, InvolvesMe(me));
    forall i | 0 <= i < |cs| ensures ChatWellFormed(cs[i], me) && cs[i].mensajes != [] {
      assert cs[i] == ChatFor(kept, me, ks[i]);
      BucketChatWellFormed(kept, me, ks[i]);
    }
  }

  /** Every kept message has a chat, and by distinct ids exactly one. */
  lemma GroupCovers(all: seq<Message>, me: string, m: Message)
    requires m in all && Involves(m, me)
    ensures var cs := GroupChats(all, me);
      exists i :: 0 <= i < |cs| && cs[i].chatId == ChatKey(m, me) && m in cs[i].mensajes
  {
    var kept := Kept(all, me);
    var ks := ChatKeys(kept, me);
    FilterMembership(all, InvolvesMe(me));
    assert m in kept;
    var p :| 0 <= p < |kept| && kept[p] == m;
    ChatKeysExact(kept, me, ChatKey(m, me));
    assert ChatKey(m, me) in ks;
    var i :| 0 <= i < |ks| && ks[i] == ChatKey(m, me);
    GroupMembership(all, me, i, m);
  }

  /** Chat order is the order in which each counterpart first appears among the kept messages. */
  lemma GroupOrder(all: seq<Message>, me: string)
    ensures var cs := GroupChats(all, me);
      forall i, j :: 0 <= i < j < |cs| ==> SeenBefore(Kept(all, me), me, cs[i].chatId, cs[j].chatId)
  {
    var cs := GroupChats(all, me);
    var ks := ChatKeys(Kept(all, me), me);
    ChatKeysFirstAppearance(Kept(all, me), me);
    forall i, j | 0 <= i < j < |cs| ensures SeenBefore(Kept(all, me), me, cs[i].chatId, cs[j].chatId) {
      assert cs[i].chatId == ks[i] && cs[j].chatId == ks[j];
    }
  }

  /** Within a chat, messages with equal `fecha` keep their order of arrival. */
  lemma GroupStable(all: seq<Message>, me: string, i: nat, t: int)
    requires i < |GroupChats(all, me)|
    ensures var c := GroupChats(all, me)[i];
      Stamped(c.mensajes, t) == Stamped(Bucket(Kept(all, me), me, c.chatId), t)
  {
    var c := GroupChats(all, me)[i];
    SortStable(Bucket(Kept(all, me), me, c.chatId), t);
  }

  function TotalMessages(cs: seq<Chat>): nat {
    if cs == [] then 0 else TotalMessages(cs[..|cs| - 1]) + |cs[|cs| - 1].mensajes|
  }

  function SumBuckets(ks: seq<string>, ms: seq<Message>, me: string): nat {
    if ks == [] then 0 else SumBuckets(ks[..|ks| - 1], ms, me) + |Bucket(ms, me, ks[|ks| - 1])|
  }

  lemma {:induction false} SumBucketsSnoc(ks: seq<string>, ms: seq<Message>, m: Message, me: string)
    requires Distinct(ks)
    ensures SumBuckets(ks, ms + [m], me) ==
      SumBuckets(ks, ms, me) + (if ChatKey(m, me) in ks then 1 else 0)
    decreases |ks|
  {
    if ks != [] {
      var init := ks[..|ks| - 1];
      var k := ks[|ks| - 1];
      assert ks == init + [k];
      SumBucketsSnoc(init, ms, m, me);
      FilterSnoc(ms, m, KeyedTo(me, k));
    }
  }

  lemma {:induction false} SumBucketsKeys(ms: seq<Message>, me: string)
    ensures SumBuckets(ChatKeys(ms, me), ms, me) == |ms|
    decreases |ms|
  {
    if ms != [] {
      var init := ms[..|ms| - 1];
      var m := ms[|ms| - 1];
      var k := ChatKey(m, me);
      var ks := ChatKeys(init, me);
      assert ms == init + [m];
      SumBucketsKeys(init, me);
      SumBucketsSnoc(ks, init, m, me);
      if k !in ks {
        assert ChatKeys(ms, me) == ks + [k];
        assert (ks + [k])[..|ks|] == ks;
        FilterSnoc(init, m, KeyedTo(me, k));
        BucketOfNewKey(init, me, k);
      }
    }
  }

  lemma {:induction false} TotalPrefix(all: seq<Message>, me: string, n: nat)
    requires n <= |GroupChats(all, me)|
    ensures TotalMessages(GroupChats(all, me)[..n]) == SumBuckets(ChatKeys(Kept(all, me), me)[..n], Kept(all, me), me)
  {
    var cs := GroupChats(all, me);
    var ks := ChatKeys(Kept(all, me), me);
    if n > 0 {
      TotalPrefix(all, me, n - 1);
      assert cs[..n][..n - 1] == cs[..n - 1];
      assert ks[..n][..n - 1] == ks[..n - 1];
      SortPermutes(Bucket(Kept(all, me), me, ks[n - 1]));
      assert |cs[n - 1].mensajes| == |multiset(cs[n - 1].mensajes)|;
    }
  }

  /** The chats' message counts sum to the number of kept messages. */
  lemma GroupTotal(all: seq<Message>, me: string)
    ensures TotalMessages(GroupChats(all, me)) == |Kept(all, me)|
  {
    var cs := GroupChats(all, me);
    TotalPrefix(all, me, |cs|);
    assert cs[..|cs|] == cs;
    assert ChatKeys(Kept(all, me), me)[..|cs|] == ChatKeys(Kept(all, me), me);
    SumBucketsKeys(Kept(all, me), me);
  }

  /** `chatDict` after pushing the messages ms: one entry per key, holding that key's bucket. */
  ghost predicate DictFor(dict: map<string, seq<Message>>, ms: seq<Message>, me: string) {
    && (forall k :: k in dict <==> k in ChatKeys(ms, me))
    && (forall k :: k in dict ==> dict[k] == Bucket(ms, me, k))
  }

  /** `if (!chatDict[k]) chatDict[k] = []; chatDict[k].push(m);` */
  function Push(dict: map<string, seq<Message>>, k: string, m: Message): map<string, seq<Message>> {
    var d := if k in dict then dict else dict[k := []];
    d[k := d[k] + [m]]
  }

  /** One `forEach` step keeps the dictionary equal to the buckets of the messages seen. */
  lemma DictStep(dict: map<string, seq<Message>>, ms: seq<Message>, m: Message, me: string)
    requires DictFor(dict, ms, me)
    ensures DictFor(Push(dict, ChatKey(m, me), m), ms + [m], me)
  {
    var k := ChatKey(m, me);
    var d2 := Push(dict, k, m);
    ChatKeysSnoc(ms, m, me);
    if k !in dict {
      BucketOfNewKey(ms, me, k);
    }
    forall k' | k' in d2 ensures d2[k'] == Bucket(ms + [m], me, k') {
      FilterSnoc(ms, m, KeyedTo(me, k'));
    }
  }

  /** One step of the pass, for the dictionary and the insertion order together. */
  lemma BuildStep(order: seq<string>, dict: map<string, seq<Message>>, ms: seq<Message>, m: Message, me: string)
    requires order == ChatKeys(ms, me) && DictFor(dict, ms, me)
    ensures (if ChatKey(m, me) in dict then order else order + [ChatKey(m, me)]) == ChatKeys(ms + [m], me)
    ensures DictFor(Push(dict, ChatKey(m, me), m), ms + [m], me)
  {
    DictStep(dict, ms, m, me);
    ChatKeysSnoc(ms, m, me);
  }

  /** A dictionary for ms, read through the key order of ms, yields each key's bucket. */
  lemma DictLookup(order: seq<string>, dict: map<string, seq<Message>>, ms: seq<Message>, me: string)
    requires order == ChatKeys(ms, me) && DictFor(dict, ms, me)
    ensures forall i :: 0 <= i < |order| ==> order[i] in dict && dict[order[i]] == Bucket(ms, me, order[i])
  {
  }

  /** The `forEach` pass of the handler: push each kept message onto
      `chatDict[chatId]`, creating the entry on first sight; `order` records
      the keys in insertion order, as `Object.keys` returns them. */
  method BuildChatDict(kept: seq<Message>, me: string)
    returns (order: seq<string>, dict: map<string, seq<Message>>)
    ensures order == ChatKeys(kept, me)
    ensures forall i :: 0 <= i < |order| ==> order[i] in dict && dict[order[i]] == Bucket(kept, me, order[i])
  {
    order := [];
    dict := map[];
    var n := 0;
    while n < |kept|
      invariant 0 <= n <= |kept|
      invariant order == ChatKeys(kept[..n], me)
      invariant DictFor(dict, kept[..n], me)
    {
      var m := kept[n];
      var chatId := ChatKey(m, me);
      BuildStep(order, dict, kept[..n], m, me);
      order := if chatId in dict then order else order + [chatId];
      dict := Push(dict, chatId, m);
      assert kept[..n + 1] == kept[..n] + [m];
      n := n + 1;
    }
    assert kept[..n] == kept;
    DictLookup(order, dict, kept, me);
  }

  /** The whole handler body: filter, build the dictionary, then one chat per
      key in insertion order with its messages sorted by `fecha`. It computes
      the grouping above. */
  method CollectChats(all: seq<Message>, me: string) returns (chats: seq<Chat>)
    ensures chats == GroupChats(all, me)
  {
    var kept := Kept(all, me);
    var order, dict := BuildChatDict(kept, me);
    chats := [];
    var j := 0;
    while j < |order|
      invariant 0 <= j <= |order|
      invariant |chats| == j
      invariant forall i :: 0 <= i < j ==> chats[i] == ChatFor(kept, me, order[i])
    {
      chats := chats + [Chat(order[j], SortByFecha(dict[order[j]]))];
      j := j + 1;
    }
    var g := GroupChats(all, me);
    assert |g| == |chats|;
    forall i | 0 <= i < |g| ensures g[i] == chats[i] {
    }
  }
}
