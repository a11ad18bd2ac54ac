/** What a device shows: the read loop of the client over the hub over the queue, from stored row to
    displayed message (internal/control/client.go, cmd/walkie/app.go, internal/messagehub/hub.go). */
module Display {
  import opened Basics
  import opened Envelopes
  import opened SealedStorage
  import opened SealedBox
  import opened MessageLog
  import Hub
  import Queue
  import Protocol = AckProtocol

  /** The messages among the envelopes handed to Hub.Apply, in order. */
  function Texts(prim: Primitives, codec: Codec, identity: Option<Identity>, heard: seq<Envelope>): seq<Message> {
    if heard == [] then []
    else
      var last := Hub.MessageOf(prim, codec, identity, heard[|heard| - 1]);
      Texts(prim, codec, identity, heard[..|heard| - 1]) + if last.Some? then [last.value] else []
  }

  /** The messages displayed: each one whose ID is not among the last `capacity` displayed. */
  function Shown(capacity: nat, msgs: seq<Message>): seq<Message> {
    if msgs == [] then []
    else
      var before, m := Shown(capacity, msgs[..|msgs| - 1]), msgs[|msgs| - 1];
      if m.id in LastN(Ids(before), capacity) then before else before + [m]
  }

  lemma IdsOneMore(msgs: seq<Message>, m: Message)
    ensures Ids(msgs + [m]) == Ids(msgs) + [m.id]
  {
  }

  lemma AcceptedOneMore(capacity: nat, ids: seq<string>, id: string)
    ensures Accepted(capacity, ids + [id]) ==
      if id in LastN(Accepted(capacity, ids), capacity) then Accepted(capacity, ids) else Accepted(capacity, ids) + [id]
  {
    assert (ids + [id])[..|ids|] == ids;
  }

  lemma OneMoreIsAccepted(capacity: nat, msgs: seq<Message>, m: Message)
    requires Ids(Shown(capacity, msgs)) == Accepted(capacity, Ids(msgs))
    ensures Ids(Shown(capacity, msgs + [m])) == Accepted(capacity, Ids(msgs + [m]))
  {
    ShownOneMore(capacity, msgs, Some(m));
    IdsOneMore(msgs, m);
    IdsOneMore(Shown(capacity, msgs), m);
    AcceptedOneMore(capacity, Ids(msgs), m.id);
  }

  /** The display is the duplicate filter's acceptance, message by message. */
  lemma {:induction false} ShownIsAccepted(capacity: nat, msgs: seq<Message>)
    ensures Ids(Shown(capacity, msgs)) == Accepted(capacity, Ids(msgs))
  {
    if msgs == [] {
      assert Ids([]) == [];
    } else {
      var init, m := msgs[..|msgs| - 1], msgs[|msgs| - 1];
      assert msgs == init + [m];
      ShownIsAccepted(capacity, init);
      OneMoreIsAccepted(capacity, init, m);
    }
  }

  lemma {:induction false} HeardIsShown(capacity: nat, msgs: seq<Message>, m: Message)
    requires m in msgs
    ensures m.id in Ids(Shown(capacity, msgs))
  {
    var init, last := msgs[..|msgs| - 1], msgs[|msgs| - 1];
    assert msgs == init + [last];
    IdsOneMore(Shown(capacity, init), last);
    if m in init {
      HeardIsShown(capacity, init, m);
    }
  }

  lemma {:induction false} TextsHold(prim: Primitives, codec: Codec, identity: Option<Identity>,
                                     heard: seq<Envelope>, i: nat)
    requires i < |heard| && Hub.MessageOf(prim, codec, identity, heard[i]).Some?
    ensures Hub.MessageOf(prim, codec, identity, heard[i]).value in Texts(prim, codec, identity, heard)
  {
    if i < |heard| - 1 {
      TextsHold(prim, codec, identity, heard[..|heard| - 1], i);
    }
  }

  /** Row p of the device holds a message it can open. */
  ghost predicate IsStored(w: Protocol.World, prim: Primitives, identity: Option<Identity>,
                           s: Protocol.State, p: nat, m: Message) {
    && p < TWO_64 && Queue.Key(w.me, p) in s.queue.tables.inbox
    && var frame := DeliveryFromStorage(w.codec, p, s.queue.tables.inbox[Queue.Key(w.me, p)].body);
       frame.Some? && Hub.MessageOf(prim, w.codec, identity, frame.value) == Some(m)
  }

  /** What a process that catches up after the run is handed, and what it displays. */
  function HandedTo(w: Protocol.World, prim: Primitives, identity: Option<Identity>,
                   es: seq<Protocol.Event>, c: Protocol.ClientId): seq<Message> {
    var n := |Queue.Resume(w.codec, Protocol.Run(w, es).queue.tables, w.me, 0)|;
    var s := Protocol.Run(w, es + Protocol.CatchUpEvents(c, n));
    if c in s.clients then Texts(prim, w.codec, identity, s.clients[c].heard) else []
  }

  function ShownAfter(w: Protocol.World, prim: Primitives, identity: Option<Identity>, capacity: nat,
                      es: seq<Protocol.Event>, c: Protocol.ClientId): seq<Message> {
    Shown(capacity, HandedTo(w, prim, identity, es, c))
  }

  /** Every message the device was handed is displayed at least once. */
  lemma StoredMessageIsShown(w: Protocol.World, prim: Primitives, identity: Option<Identity>, capacity: nat,
                             es: seq<Protocol.Event>, c: Protocol.ClientId, p: nat, m: Message)
    requires IsStored(w, prim, identity, Protocol.Run(w, es), p, m)
    ensures m.id in Ids(ShownAfter(w, prim, identity, capacity, es, c))
  {
    var s := Protocol.Run(w, es);
    var n := |Queue.Resume(w.codec, s.queue.tables, w.me, 0)|;
    Protocol.RunKeepsInv(w, es);
    Protocol.CatchUpIsARun(w, es, c, n);
    FrameCarriesPosition(w.codec, p, s.queue.tables.inbox[Queue.Key(w.me, p)].body);
    var i := Protocol.CatchUpHears(w, s, c, p);
    var heard := Protocol.CatchUp(w, s, c, n).clients[c].heard;
    TextsHold(prim, w.codec, identity, heard, i);
    HeardIsShown(capacity, Texts(prim, w.codec, identity, heard), m);
  }

  /** Whatever a process is handed: a message is displayed again only after at least `capacity` others,
      pairwise distinct, were displayed in between. */
  lemma ShownAgainOnlyAfterAFullWindow(capacity: nat, msgs: seq<Message>, i: nat, j: nat)
    requires i < j < |Shown(capacity, msgs)| && Shown(capacity, msgs)[i].id == Shown(capacity, msgs)[j].id
    ensures j - i > capacity
    ensures var ids := Ids(Shown(capacity, msgs));
      var between := ids[i + 1..i + 1 + capacity];
      |between| == capacity && ids[i] !in between && forall x, y | 0 <= x < y < capacity :: between[x] != between[y]
  {
    ShownIsAccepted(capacity, msgs);
    DuplicateNeedsAFullWindow(capacity, Ids(msgs), i, j);
  }

  /** So as long as a process has displayed no more than the window holds, it displays nothing twice. */
  lemma NothingTwiceWithinTheWindow(capacity: nat, msgs: seq<Message>, i: nat, j: nat)
    requires i < j < |Shown(capacity, msgs)| <= capacity
    ensures Shown(capacity, msgs)[i].id != Shown(capacity, msgs)[j].id
  {
    if Shown(capacity, msgs)[i].id == Shown(capacity, msgs)[j].id {
      ShownAgainOnlyAfterAFullWindow(capacity, msgs, i, j);
    }
  }

  /** Exactly once: in every run, as long as the catching-up process has displayed no more than the window
      holds, each stored message it can open is displayed at one place and no other. */
  lemma StoredMessageIsShownOnce(w: Protocol.World, prim: Primitives, identity: Option<Identity>, capacity: nat,
                                 es: seq<Protocol.Event>, c: Protocol.ClientId, p: nat, m: Message) returns (at: nat)
    requires IsStored(w, prim, identity, Protocol.Run(w, es), p, m)
    ensures var shown := ShownAfter(w, prim, identity, capacity, es, c);
      |shown| <= capacity ==>
        at < |shown| && shown[at].id == m.id && forall i | 0 <= i < |shown| && i != at :: shown[i].id != m.id
  {
    StoredMessageIsShown(w, prim, identity, capacity, es, c, p, m);
    var shown := ShownAfter(w, prim, identity, capacity, es, c);
    at :| 0 <= at < |Ids(shown)| && Ids(shown)[at] == m.id;
    if |shown| <= capacity {
      OnlyThere(capacity, shown, HandedTo(w, prim, identity, es, c), at);
    }
  }

  lemma OnlyThere(capacity: nat, shown: seq<Message>, msgs: seq<Message>, at: nat)
    requires shown == Shown(capacity, msgs) && at < |shown| <= capacity
    ensures forall i | 0 <= i < |shown| && i != at :: shown[i].id != shown[at].id
  {
    forall i | 0 <= i < |shown| && i != at ensures shown[i].id != shown[at].id {
      if i < at {
        NothingTwiceWithinTheWindow(capacity, msgs, i, at);
      } else {
        NothingTwiceWithinTheWindow(capacity, msgs, at, i);
      }
    }
  }

  /** What the device has filed is what the specification shows of the envelopes it was handed. */
  ghost predicate FiledFor(d: Hub.Device, heard: seq<Envelope>)
    reads d.log, d.log.dedup
  {
    d.log.filed == Shown(d.log.dedup.capacity, Texts(d.prim, d.codec, d.identity, heard))
  }

  /** One frame: the device files what the specification shows next. */
  method HandOver(d: Hub.Device, env: Envelope, ghost heard: seq<Envelope>)
    requires d.Valid() && FiledFor(d, heard)
    modifies d.log, d.log.dedup
    ensures d.Valid() && FiledFor(d, heard + [env])
  {
    var msg, _ := d.Apply(env);
    assert (heard + [env])[..|heard|] == heard;
    ShownOneMore(d.log.dedup.capacity, Texts(d.prim, d.codec, d.identity, heard), msg);
  }

  /** The read loop over a new device: what it files is what the specification shows. */
  method ReadLoop(d: Hub.Device, envs: seq<Envelope>)
    requires d.Valid() && d.log.filed == []
    modifies d.log, d.log.dedup
    ensures d.Valid() && FiledFor(d, envs)
  {
    var i := 0;
    ghost var heard := [];
    while i < |envs|
      invariant 0 <= i <= |envs| && heard == envs[..i]
      invariant d.Valid() && FiledFor(d, heard)
    {
      HandOver(d, envs[i], heard);
      heard := heard + [envs[i]];
      i := i + 1;
    }
    assert heard == envs;
  }

  lemma ShownOneMore(capacity: nat, msgs: seq<Message>, msg: Option<Message>)
    ensures var before := Shown(capacity, msgs);
      Shown(capacity, msgs + if msg.Some? then [msg.value] else []) ==
      if msg.Some? && msg.value.id !in LastN(Ids(before), capacity) then before + [msg.value] else before
  {
    if msg.Some? {
      assert (msgs + [msg.value])[..|msgs|] == msgs;
    } else {
      assert msgs + [] == msgs;
    }
  }
}
