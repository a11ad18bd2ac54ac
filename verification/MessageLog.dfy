/** The receiver-side display model (internal/message): a bounded duplicate filter built as a ring
    with a membership set, and per-conversation scrollback windows. */
module MessageLog {
  import opened Basics
  import opened Envelopes
  import Strings

  datatype Message = Message(
    id: string,
    sender: string,
    recipient: string,
    body: string,
    sentAt: Instant,
    receivedAt: Instant)

  const BROADCAST: string := "broadcast"

  /** ConversationKeyFor: broadcasts share one key, a direct message belongs to its peer. */
  function ConversationKey(local: string, m: Message): string {
    if m.recipient == "" then BROADCAST
    else "dm:" + if m.sender == local then m.recipient else m.sender
  }

  /** Both directions of a correspondence are one conversation, which names the peer and nobody else; and no
      peer's conversation is the one broadcasts share. */
  lemma ConversationIsWithThePeer(local: string, peer: string, m: Message)
    requires peer != "" && local != ""
    ensures m.sender == local && m.recipient == peer ==> ConversationKey(local, m) == "dm:" + peer
    ensures m.sender == peer && m.recipient == local ==> ConversationKey(local, m) == "dm:" + peer
    ensures ConversationKey(local, m) == BROADCAST <==> m.recipient == ""
    ensures "dm:" + peer != BROADCAST && forall other: string | other != peer :: "dm:" + other != "dm:" + peer
  {
    forall other: string | other != peer ensures "dm:" + other != "dm:" + peer {
      assert ("dm:" + other)[3..] == other && ("dm:" + peer)[3..] == peer;
    }
    assert forall x: string :: ("dm:" + x)[0] == 'd';
    assert BROADCAST[0] == 'b';
  }

  // ---------------------------------------------------------------------------
  // The duplicate filter against a sliding window
  // ---------------------------------------------------------------------------

  /** The simple filter: an ID is new when it is not among the last `capacity` accepted ones. */
  function Accepted(capacity: nat, ids: seq<string>): seq<string> {
    if ids == [] then []
    else
      var before := Accepted(capacity, ids[..|ids| - 1]);
      var id := ids[|ids| - 1];
      if id in LastN(before, capacity) then before else before + [id]
  }

  /** Equal acceptances are more than `capacity` apart. */
  ghost predicate FarApart(capacity: nat, accepted: seq<string>) {
    forall i, j | 0 <= i < j < |accepted| && j - i <= capacity :: accepted[i] != accepted[j]
  }

  lemma {:induction false} AcceptedAreFarApart(capacity: nat, ids: seq<string>)
    ensures FarApart(capacity, Accepted(capacity, ids))
  {
    if ids != [] {
      var before, id := Accepted(capacity, ids[..|ids| - 1]), ids[|ids| - 1];
      AcceptedAreFarApart(capacity, ids[..|ids| - 1]);
      if id !in LastN(before, capacity) {
        NewIdStaysFarApart(capacity, before, id);
      }
    }
  }

  lemma NewIdStaysFarApart(capacity: nat, before: seq<string>, id: string)
    requires FarApart(capacity, before) && id !in LastN(before, capacity)
    ensures FarApart(capacity, before + [id])
  {
    var window := LastN(before, capacity);
    forall i | 0 <= i < |before| && |before| - i <= capacity ensures before[i] != id {
      assert before[i] == window[i - (|before| - |window|)];
    }
  }

  /** Between two acceptances of one ID, at least `capacity` other, pairwise distinct IDs were
      accepted. */
  lemma DuplicateNeedsAFullWindow(capacity: nat, ids: seq<string>, i: nat, j: nat)
    requires i < j < |Accepted(capacity, ids)|
    requires Accepted(capacity, ids)[i] == Accepted(capacity, ids)[j]
    ensures j - i > capacity
    ensures var between := Accepted(capacity, ids)[i + 1..i + 1 + capacity];
      && |between| == capacity && Accepted(capacity, ids)[i] !in between
      && forall x, y | 0 <= x < y < capacity :: between[x] != between[y]
  {
    AcceptedAreFarApart(capacity, ids);
  }

  ghost predicate AmongLast(xs: seq<string>, n: nat, x: string) {
    exists j :: 0 <= j < |xs| && |xs| - j <= n && xs[j] == x
  }

  lemma LastNHolds(xs: seq<string>, n: nat, x: string)
    ensures x in LastN(xs, n) <==> AmongLast(xs, n, x)
  {
    var window := LastN(xs, n);
    var skipped := |xs| - |window|;
    assert forall i | 0 <= i < |window| :: window[i] == xs[i + skipped];
    if j :| 0 <= j < |xs| && |xs| - j <= n && xs[j] == x {
      assert window[j - skipped] == x;
    }
  }

  /** An ID is accepted if and only if it is none of the last `capacity` accepted ones. */
  lemma AcceptedExactlyOutsideTheWindow(capacity: nat, ids: seq<string>, id: string)
    ensures var before := Accepted(capacity, ids);
      Accepted(capacity, ids + [id]) == if AmongLast(before, capacity, id) then before else before + [id]
  {
    assert (ids + [id])[..|ids|] == ids;
    LastNHolds(Accepted(capacity, ids), capacity, id);
  }

  /** Nothing is shut out for good, and nothing made up: the accepted IDs are the IDs. */
  lemma {:induction false} EveryIdIsAccepted(capacity: nat, ids: seq<string>, id: string)
    ensures id in Accepted(capacity, ids) <==> id in ids
  {
    if ids != [] {
      var init, last := ids[..|ids| - 1], ids[|ids| - 1];
      EveryIdIsAccepted(capacity, init, id);
      assert ids == init + [last];
      assert id in ids <==> id in init || id == last;
    }
  }

  /** The ring read from its oldest slot. */
  function Window(order: seq<string>, head: nat): seq<string>
    requires head <= |order|
  {
    order[head..] + order[..head]
  }

  /** The ring, its head and the membership set represent the last `capacity` accepted IDs. */
  ghost predicate RingOk(capacity: nat, seen: set<string>, order: seq<string>, head: nat, accepted: seq<string>) {
    && capacity > 0 && |order| <= capacity
    && (if |order| < capacity then head == 0 else head < capacity)
    && Window(order, head) == LastN(accepted, capacity)
    && seen == (set id | id in order)
    && FarApart(capacity, accepted)
  }

  class Dedup {
    const capacity: nat
    var seen: set<string>
    var order: seq<string>
    var head: nat
    ghost var accepted: seq<string>

    ghost predicate Valid()
      reads this
    {
      RingOk(capacity, seen, order, head, accepted)
    }

    constructor (capacity: nat)
      requires capacity > 0
      ensures Valid() && this.capacity == capacity && accepted == []
    {
      this.capacity := capacity;
      seen, order, head, accepted := {}, [], 0, [];
    }

    /** True exactly when the ID is outside the window of the last `capacity` accepted ones. */
    method First(id: string) returns (isNew: bool)
      requires Valid()
      modifies this
      ensures Valid()
      ensures isNew == (id !in LastN(old(accepted), capacity))
      ensures accepted == if isNew then old(accepted) + [id] else old(accepted)
    {
      SeenIsWindow(capacity, seen, order, head, accepted, id);
      if id in seen {
        return false;
      }
      if |order| == capacity {
        RingOverwrites(capacity, seen, order, head, accepted, id);
        seen := seen - {order[head]};
        order := order[head := id];
        head := (head + 1) % capacity;
      } else {
        RingFills(capacity, seen, order, head, accepted, id);
        order := order + [id];
      }
      seen := seen + {id};
      accepted := accepted + [id];
      isNew := true;
    }

    method Len() returns (n: nat)
      requires Valid()
      ensures n <= capacity && n == |LastN(accepted, capacity)|
    {
      n := |order|;
    }
  }

  lemma RingSteps(order: seq<string>, head: nat, id: string)
    requires head + 1 < |order|
    ensures Window(order[head := id], head + 1) == Window(order, head)[1..] + [id]
  {
    var order' := order[head := id];
    assert order'[head + 1..] == order[head + 1..] && order'[..head + 1] == order[..head] + [id];
    assert Window(order, head)[1..] == order[head + 1..] + order[..head];
  }

  lemma RingWraps(order: seq<string>, head: nat, id: string)
    requires head + 1 == |order|
    ensures Window(order[head := id], 0) == Window(order, head)[1..] + [id]
  {
    assert Window(order, head)[1..] == order[..head];
    assert order[head := id] == order[..head] + [id];
  }

  lemma NextHead(head: nat, n: nat)
    requires head < n
    ensures (head + 1) % n == if head + 1 < n then head + 1 else 0
  {
  }

  /** Overwriting the oldest slot and moving the head drops the oldest entry and appends the new. */
  lemma RingDropsOldest(order: seq<string>, head: nat, id: string, next: nat)
    requires head < |order| && next == (head + 1) % |order|
    ensures next < |order| && Window(order[head := id], next) == Window(order, head)[1..] + [id]
  {
    NextHead(head, |order|);
    if head + 1 < |order| {
      RingSteps(order, head, id);
    } else {
      RingWraps(order, head, id);
    }
  }

  lemma WindowSlides(accepted: seq<string>, capacity: nat, id: string)
    requires capacity > 0
    ensures LastN(accepted + [id], capacity) ==
      if |accepted| < capacity then LastN(accepted, capacity) + [id] else LastN(accepted, capacity)[1..] + [id]
  {
  }

  ghost predicate Distinct(xs: seq<string>) {
    forall i, j | 0 <= i < j < |xs| :: xs[i] != xs[j]
  }

  lemma DistinctWindow(capacity: nat, accepted: seq<string>)
    requires FarApart(capacity, accepted)
    ensures Distinct(LastN(accepted, capacity))
  {
  }

  /** In a ring without repeats, deleting the head's ID and adding the new one keeps the set in
      step with the overwritten ring. */
  lemma SeenFollowsRing(order: seq<string>, head: nat, id: string)
    requires head < |order| && Distinct(order[head..] + order[..head])
    ensures var order' := order[head := id];
      (set x | x in order) - {order[head]} + {id} == set x | x in order'
  {
    var window := order[head..] + order[..head];
    forall i | 0 <= i < |order| && i != head ensures order[i] != order[head] {
      assert window[0] == order[head];
      assert window[if i > head then i - head else |order| - head + i] == order[i];
    }
    var order' := order[head := id];
    forall x ensures x in (set y | y in order) - {order[head]} + {id} <==> x in order' {
      if x in order && x != order[head] {
        var i :| 0 <= i < |order| && order[i] == x;
        assert order'[i] == x;
      }
      if x in order' && x != id {
        var i :| 0 <= i < |order'| && order'[i] == x;
        assert order[i] == x;
      }
      assert order'[head] == id;
    }
  }

  lemma SeenIsWindow(capacity: nat, seen: set<string>, order: seq<string>, head: nat, accepted: seq<string>, id: string)
    requires RingOk(capacity, seen, order, head, accepted)
    ensures id in seen <==> id in LastN(accepted, capacity)
  {
    assert id in order <==> id in Window(order, head) by {
      assert order == order[..head] + order[head..];
    }
  }

  lemma RingFills(capacity: nat, seen: set<string>, order: seq<string>, head: nat, accepted: seq<string>, id: string)
    requires RingOk(capacity, seen, order, head, accepted) && id !in seen && |order| < capacity
    ensures RingOk(capacity, seen + {id}, order + [id], head, accepted + [id])
  {
    SeenIsWindow(capacity, seen, order, head, accepted, id);
    NewIdStaysFarApart(capacity, accepted, id);
    WindowSlides(accepted, capacity, id);
    assert Window(order, head) == order && Window(order + [id], head) == order + [id];
    assert forall x :: x in order + [id] <==> x in order || x == id;
  }

  lemma RingOverwrites(capacity: nat, seen: set<string>, order: seq<string>, head: nat, accepted: seq<string>,
                       id: string)
    requires RingOk(capacity, seen, order, head, accepted) && id !in seen && |order| == capacity
    ensures RingOk(capacity, seen - {order[head]} + {id}, order[head := id], (head + 1) % capacity, accepted + [id])
  {
    SeenIsWindow(capacity, seen, order, head, accepted, id);
    NewIdStaysFarApart(capacity, accepted, id);
    WindowSlides(accepted, capacity, id);
    RingDropsOldest(order, head, id, (head + 1) % capacity);
    DistinctWindow(capacity, accepted);
    SeenFollowsRing(order, head, id);
  }

  // ---------------------------------------------------------------------------
  // Conversations
  // ---------------------------------------------------------------------------

  /** The messages of one conversation, in arrival order. */
  function WithKey(local: string, filed: seq<Message>, key: string): seq<Message> {
    if filed == [] then []
    else
      var before, last := WithKey(local, filed[..|filed| - 1], key), filed[|filed| - 1];
      if ConversationKey(local, last) == key then before + [last] else before
  }

  function Ids(filed: seq<Message>): seq<string> {
    seq(|filed|, i requires 0 <= i < |filed| => filed[i].id)
  }

  lemma OneMoreMessage(local: string, filed: seq<Message>, m: Message, key: string)
    ensures WithKey(local, filed + [m], key) ==
      if ConversationKey(local, m) == key then WithKey(local, filed, key) + [m] else WithKey(local, filed, key)
    ensures Ids(filed + [m]) == Ids(filed) + [m.id]
  {
    assert (filed + [m])[..|filed|] == filed;
  }

  /** Trimming after every append keeps exactly the last n. */
  lemma TrimmedWindow(all: seq<Message>, m: Message, n: nat)
    requires n > 0
    ensures LastN(LastN(all, n) + [m], n) == LastN(all + [m], n)
  {
  }

  /** Every conversation is its window over the filed messages. */
  ghost predicate FiledRight(local: string, scrollback: nat, convs: map<string, seq<Message>>, filed: seq<Message>) {
    && (forall key | key in convs :: convs[key] == LastN(WithKey(local, filed, key), scrollback))
    && (forall key: string | key !in convs :: WithKey(local, filed, key) == [])
  }

  lemma FiledOneMore(local: string, scrollback: nat, convs: map<string, seq<Message>>, filed: seq<Message>, m: Message)
    requires scrollback > 0 && FiledRight(local, scrollback, convs, filed)
    ensures var key := ConversationKey(local, m);
      var conv := (if key in convs then convs[key] else []) + [m];
      FiledRight(local, scrollback, convs[key := LastN(conv, scrollback)], filed + [m])
  {
    var key := ConversationKey(local, m);
    var had := if key in convs then convs[key] else [];
    var convs' := convs[key := LastN(had + [m], scrollback)];
    ItsConversation(local, scrollback, filed, m, had);
    forall k | k in convs' ensures convs'[k] == LastN(WithKey(local, filed + [m], k), scrollback) {
      if k != key { OneMoreMessage(local, filed, m, k); }
    }
    forall k: string | k !in convs' ensures WithKey(local, filed + [m], k) == [] {
      OneMoreMessage(local, filed, m, k);
    }
  }

  lemma ItsConversation(local: string, scrollback: nat, filed: seq<Message>, m: Message, had: seq<Message>)
    requires scrollback > 0 && had == LastN(WithKey(local, filed, ConversationKey(local, m)), scrollback)
    ensures LastN(had + [m], scrollback) == LastN(WithKey(local, filed + [m], ConversationKey(local, m)), scrollback)
  {
    OneMoreMessage(local, filed, m, ConversationKey(local, m));
    TrimmedWindow(WithKey(local, filed, ConversationKey(local, m)), m, scrollback);
  }

  class Log {
    const local: string
    const scrollback: nat
    const dedup: Dedup
    var convs: map<string, seq<Message>>
    ghost var filed: seq<Message>

    /** Each conversation is the last `scrollback` accepted messages with its key, in arrival order,
        and the filter's window is over the same messages. */
    ghost predicate Valid()
      reads this, dedup
    {
      && scrollback > 0 && dedup.Valid() && dedup.accepted == Ids(filed)
      && FiledRight(local, scrollback, convs, filed)
    }

    constructor (local: string, scrollback: int, window: int)
      ensures Valid() && fresh(dedup) && filed == [] && this.local == local
      ensures this.scrollback == if scrollback <= 0 then 500 else scrollback
      ensures dedup.capacity == if window <= 0 then 4096 else window
    {
      this.local := local;
      this.scrollback := if scrollback <= 0 then 500 else scrollback;
      dedup := new Dedup(if window <= 0 then 4096 else window);
      convs, filed := map[], [];
    }

    /** Files a message once: whether it is displayed is the filter's answer for its ID, and only
        its own conversation changes. */
    method Append(m: Message) returns (display: bool)
      requires Valid()
      modifies this, dedup
      ensures Valid()
      ensures display == (m.id !in LastN(Ids(old(filed)), dedup.capacity))
      ensures filed == if display then old(filed) + [m] else old(filed)
    {
      display := dedup.First(m.id);
      if !display { return; }
      OneMoreMessage(local, filed, m, ConversationKey(local, m));
      File(m);
    }

    /** Appends to the message's conversation and trims it to the scrollback. */
    method File(m: Message)
      requires scrollback > 0 && FiledRight(local, scrollback, convs, filed)
      modifies this
      ensures FiledRight(local, scrollback, convs, filed) && filed == old(filed) + [m]
    {
      var key := ConversationKey(local, m);
      FiledOneMore(local, scrollback, convs, filed, m);
      var conv := (if key in convs then convs[key] else []) + [m];
      var over := |conv| - scrollback;
      if over > 0 {
        conv := conv[over..];
      }
      convs := convs[key := conv];
      filed := filed + [m];
    }

    method Conversation(key: string) returns (out: seq<Message>)
      requires Valid()
      ensures out == LastN(WithKey(local, filed, key), scrollback)
    {
      out := if key in convs then convs[key] else [];
    }

    /** The known keys, sorted by insertion sort on a copy. */
    method Conversations() returns (keys: seq<string>)
      requires Valid()
      ensures Sorted(keys)
      ensures multiset(keys) == multiset(convs.Keys)
    {
      keys := [];
      var left := convs.Keys;
      while left != {}
        invariant left <= convs.Keys && multiset(keys) + multiset(left) == multiset(convs.Keys)
        decreases left
      {
        var k :| k in left;
        assert left == (left - {k}) + {k};
        keys, left := keys + [k], left - {k};
      }
      keys := InsertionSort(keys);
    }
  }

  ghost predicate Sorted(keys: seq<string>) {
    forall i, j | 0 <= i < j < |keys| :: Strings.AtMost(keys[i], keys[j])
  }

  /** Sorted except that the key at j may still have to sink among the first n. */
  ghost predicate SortedBut(keys: seq<string>, n: nat, j: nat) {
    && j < n <= |keys|
    && (forall x, y | 0 <= x < y < n && x != j && y != j :: Strings.AtMost(keys[x], keys[y]))
    && (forall y | j < y < n :: Strings.AtMost(keys[j], keys[y]))
  }

  function Swapped(keys: seq<string>, j: nat): seq<string>
    requires 0 < j < |keys|
  {
    keys[j := keys[j - 1]][j - 1 := keys[j]]
  }

  lemma SwapKeepsOrder(keys: seq<string>, n: nat, j: nat)
    requires SortedBut(keys, n, j) && 0 < j && Strings.Less(keys[j], keys[j - 1])
    ensures SortedBut(Swapped(keys, j), n, j - 1)
    ensures multiset(Swapped(keys, j)) == multiset(keys)
  {
    var keys' := Swapped(keys, j);
    forall x, y | 0 <= x < y < n && x != j - 1 && y != j - 1 ensures Strings.AtMost(keys'[x], keys'[y]) {
      if y == j {
        assert Strings.AtMost(keys[x], keys[j - 1]);
      } else if x == j {
        assert Strings.AtMost(keys[j - 1], keys[y]);
      }
    }
  }

  lemma SinkDone(keys: seq<string>, n: nat, j: nat)
    requires SortedBut(keys, n, j) && (j == 0 || !Strings.Less(keys[j], keys[j - 1]))
    ensures Sorted(keys[..n])
  {
    forall x, y | 0 <= x < y < n ensures Strings.AtMost(keys[x], keys[y]) {
      if y == j {
        Strings.Total(keys[j], keys[j - 1]);
        if x < j - 1 {
          AtMostTransitive(keys[x], keys[j - 1], keys[j]);
        }
      }
    }
  }

  lemma AtMostTransitive(a: string, b: string, c: string)
    requires Strings.AtMost(a, b) && Strings.AtMost(b, c)
    ensures Strings.AtMost(a, c)
  {
    if Strings.Less(a, b) && Strings.Less(b, c) {
      Strings.Transitive(a, b, c);
    }
  }

  method InsertionSort(input: seq<string>) returns (keys: seq<string>)
    ensures Sorted(keys) && multiset(keys) == multiset(input)
  {
    keys := input;
    var i := 1;
    while i < |keys|
      invariant |keys| == |input| && 1 <= i && (i <= |keys| || |keys| == 0)
      invariant multiset(keys) == multiset(input)
      invariant |keys| > 0 ==> Sorted(keys[..i])
    {
      var j := i;
      assert SortedBut(keys, i + 1, j) by {
        assert forall x | 0 <= x < i :: keys[..i][x] == keys[x];
      }
      while j > 0 && Strings.Less(keys[j], keys[j - 1])
        invariant 0 <= j <= i && |keys| == |input|
        invariant multiset(keys) == multiset(input)
        invariant SortedBut(keys, i + 1, j)
      {
        SwapKeepsOrder(keys, i + 1, j);
        keys := keys[j := keys[j - 1]][j - 1 := keys[j]];
        j := j - 1;
      }
      SinkDone(keys, i + 1, j);
      i := i + 1;
    }
    assert |keys| > 0 ==> keys[..i] == keys;
  }
}
