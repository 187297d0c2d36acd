/** Message records of the `/mensajes` resource and the ascending sort by
    `fecha` that the chat screen applies (JavaScript's `Array.prototype.sort`,
    stable since ES2019, with comparator `new Date(a.fecha) - new Date(b.fecha)`). */
module Messages {

  import opened Seqs

  /** `fecha` is the ISO-8601 instant reduced to an integer timestamp. */
  datatype Message = Message(idEnviado: string, idRecibido: string, texto: string, fecha: int)

  /** A conversation: the counterpart's e-mail and its messages. */
  datatype Chat = Chat(chatId: string, mensajes: seq<Message>)

  predicate SortedByFecha(s: seq<Message>) {
    forall i, j :: 0 <= i < j < |s| ==> s[i].fecha <= s[j].fecha
  }

  function StampedAt(t: int): Message -> bool {
    (m: Message) => m.fecha == t
  }

  /** The messages of s carrying timestamp t, in their order in s. */
  function Stamped(s: seq<Message>, t: int): seq<Message> {
    Filter(s, StampedAt(t))
  }

  /** Places m before the first element not earlier than it. */
  function Insert(m: Message, s: seq<Message>): seq<Message> {
    if s == [] || m.fecha <= s[0].fecha then [m] + s
    else [s[0]] + Insert(m, s[1..])
  }

  /** `s.sort((a, b) => a.fecha - b.fecha)`, as an insertion sort. */
  function SortByFecha(s: seq<Message>): seq<Message> {
    if s == [] then [] else Insert(s[0], SortByFecha(s[1..]))
  }

  lemma {:induction false} InsertPermutes(m: Message, s: seq<Message>)
    ensures multiset(Insert(m, s)) == multiset(s) + multiset{m}
    decreases |s|
  {
    if s != [] && s[0].fecha < m.fecha {
      assert s == [s[0]] + s[1..];
      InsertPermutes(m, s[1..]);
    }
  }

  lemma {:induction false} InsertSorted(m: Message, s: seq<Message>)
    requires SortedByFecha(s)
    ensures SortedByFecha(Insert(m, s))
    decreases |s|
  {
    if s != [] && s[0].fecha < m.fecha {
      var rest := Insert(m, s[1..]);
      InsertSorted(m, s[1..]);
      InsertPermutes(m, s[1..]);
      forall x | x in rest ensures s[0].fecha <= x.fecha {
        assert x in multiset(rest);
        if x != m {
          assert x in multiset(s[1..]);
        }
      }
    }
  }

  /** The sort yields a permutation of its input. */
  lemma {:induction false} SortPermutes(s: seq<Message>)
    ensures multiset(SortByFecha(s)) == multiset(s)
    decreases |s|
  {
    if s != [] {
      assert s == [s[0]] + s[1..];
      SortPermutes(s[1..]);
      InsertPermutes(s[0], SortByFecha(s[1..]));
    }
  }

  /** The sort yields messages in non-decreasing `fecha` order. */
  lemma {:induction false} SortOrders(s: seq<Message>)
    ensures SortedByFecha(SortByFecha(s))
    decreases |s|
  {
    if s != [] {
      SortOrders(s[1..]);
      InsertSorted(s[0], SortByFecha(s[1..]));
    }
  }

  lemma StampedCons(m: Message, s: seq<Message>, t: int)
    ensures Stamped([m] + s, t) == (if m.fecha == t then [m] else []) + Stamped(s, t)
  {
    FilterConcat([m], s, StampedAt(t));
    assert [m] == [] + [m];
    FilterSnoc([], m, StampedAt(t));
  }

  lemma {:induction false} InsertStamped(m: Message, s: seq<Message>, t: int)
    ensures Stamped(Insert(m, s), t) == (if m.fecha == t then [m] else []) + Stamped(s, t)
    decreases |s|
  {
    if s == [] || m.fecha <= s[0].fecha {
      StampedCons(m, s, t);
    } else {
      assert s == [s[0]] + s[1..];
      assert Insert(m, s) == [s[0]] + Insert(m, s[1..]);
      InsertStamped(m, s[1..], t);
      StampedCons(s[0], Insert(m, s[1..]), t);
      StampedCons(s[0], s[1..], t);
      if s[0].fecha == t {
        assert m.fecha != t;
      }
    }
  }

  /** Stability: for every timestamp, the messages carrying it appear in the
      sorted result in the same relative order as in the input. */
  lemma {:induction false} SortStable(s: seq<Message>, t: int)
    ensures Stamped(SortByFecha(s), t) == Stamped(s, t)
    decreases |s|
  {
    if s != [] {
      assert s == [s[0]] + s[1..];
      SortStable(s[1..], t);
      InsertStamped(s[0], SortByFecha(s[1..]), t);
      StampedCons(s[0], s[1..], t);
    }
  }

  /** Stability for every timestamp at once. */
  lemma SortStableAll(s: seq<Message>)
    ensures forall t :: Stamped(SortByFecha(s), t) == Stamped(s, t)
  {
    forall t ensures Stamped(SortByFecha(s), t) == Stamped(s, t) {
      SortStable(s, t);
    }
  }

  /** A sorted sequence whose first element is stamped t has it first in its t-stamped part. */
  lemma StampedHead(s: seq<Message>)
    requires s != []
    ensures Stamped(s, s[0].fecha) != [] && Stamped(s, s[0].fecha)[0] == s[0]
  {
    assert s == [s[0]] + s[1..];
    StampedCons(s[0], s[1..], s[0].fecha);
  }

  /** In a sorted sequence, no timestamp below the first one occurs. */
  lemma StampedBelowHead(s: seq<Message>, t: int)
    requires SortedByFecha(s) && s != [] && t < s[0].fecha
    ensures Stamped(s, t) == []
  {
    FilterAllOrNone(s, StampedAt(t));
  }

  /** A sorted sequence is determined by its per-timestamp parts: so the
      sort is the only stable sort, and sorting a sorted sequence changes nothing. */
  lemma {:induction false} SortedUnique(a: seq<Message>, b: seq<Message>)
    requires SortedByFecha(a) && SortedByFecha(b)
    requires forall t :: Stamped(a, t) == Stamped(b, t)
    ensures a == b
    decreases |a|
  {
    if a == [] {
      if b != [] {
        StampedHead(b);
        assert false;
      }
    } else if b == [] {
      StampedHead(a);
      assert false;
    } else {
      StampedHead(a);
      StampedHead(b);
      if a[0].fecha < b[0].fecha {
        StampedBelowHead(b, a[0].fecha);
        assert false;
      }
      if b[0].fecha < a[0].fecha {
        StampedBelowHead(a, b[0].fecha);
        assert false;
      }
      assert a[0] == b[0];
      forall t ensures Stamped(a[1..], t) == Stamped(b[1..], t) {
        assert a == [a[0]] + a[1..];
        assert b == [b[0]] + b[1..];
        assert Stamped(a, t) == Stamped(b, t);
        StampedCons(a[0], a[1..], t);
        StampedCons(b[0], b[1..], t);
        var h := if a[0].fecha == t then [a[0]] else [];
        assert Stamped(a[1..], t) == (h + Stamped(a[1..], t))[|h|..];
        assert Stamped(b[1..], t) == (h + Stamped(b[1..], t))[|h|..];
      }
      SortedUnique(a[1..], b[1..]);
      assert a == [a[0]] + a[1..];
      assert b == [b[0]] + b[1..];
    }
  }

  /** Sorting a sequence that is already sorted leaves it as it is. */
  lemma {:induction false} SortKeepsSorted(s: seq<Message>)
    requires SortedByFecha(s)
    ensures SortByFecha(s) == s
  {
    forall t ensures Stamped(SortByFecha(s), t) == Stamped(s, t) {
      SortStable(s, t);
    }
    SortOrders(s);
    SortedUnique(SortByFecha(s), s);
  }

  /** Appending a message no earlier than any existing one to a sorted chat
      and re-sorting puts it last and leaves the others in place. */
  lemma SortAppendNewest(s: seq<Message>, m: Message)
    requires SortedByFecha(s)
    requires forall i :: 0 <= i < |s| ==> s[i].fecha <= m.fecha
    ensures SortByFecha(s + [m]) == s + [m]
  {
    var u := s + [m];
    forall i, j | 0 <= i < j < |u| ensures u[i].fecha <= u[j].fecha {
      if j < |s| {
        assert u[i] == s[i] && u[j] == s[j];
      } else {
        assert u[i] == s[i] && u[j] == m;
      }
    }
    SortKeepsSorted(s + [m]);
  }
}
