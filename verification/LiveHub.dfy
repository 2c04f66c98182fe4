/**
 The live fan-out (services/hub.py): per-instrument subscriber queues of bounded length. A publication snapshots the
 subscribers and then puts the frame into each queue in turn; other clients may act between any two of these steps.
 One publisher per instrument.
 */
module LiveHub {
  import opened Wrappers

  const QUEUE_MAX: nat := 256

  type Frame = int

  /**
   What has happened to a queue: what waits in it, what its client took, what was put to it, and what of that it
   dropped.
   */
  datatype History = History(items: seq<Frame>, drained: seq<Frame>, offered: seq<Frame>, dropped: nat)

  const UNUSED := History([], [], [], 0)

  /** Puts a frame if there is room, and drops it if there is none. */
  function Offered(q: History, frame: Frame): History {
    if |q.items| < QUEUE_MAX then q.(items := q.items + [frame], offered := q.offered + [frame])
    else q.(offered := q.offered + [frame], dropped := q.dropped + 1)
  }

  function Taken(q: History): History {
    if q.items == [] then q else q.(items := q.items[1..], drained := q.drained + [q.items[0]])
  }

  /** Removes the first occurrence. */
  function Without<T(==)>(ids: seq<T>, q: T): seq<T> {
    if ids == [] then [] else if ids[0] == q then ids[1..] else [ids[0]] + Without(ids[1..], q)
  }

  // ---- The objects ----

  class Queue {
    var items: seq<Frame>
    ghost var drained: seq<Frame>
    ghost var offered: seq<Frame>
    ghost var dropped: nat

    constructor ()
      ensures So() == UNUSED
    {
      items, drained, offered, dropped := [], [], [], 0;
    }

    ghost function So(): History
      reads this
    {
      History(items, drained, offered, dropped)
    }

    /** `false` is the full queue. */
    method PutNowait(frame: Frame) returns (ok: bool)
      modifies this
      ensures So() == Offered(old(So()), frame) && ok == (|old(items)| < QUEUE_MAX)
    {
      offered := offered + [frame];
      ok := |items| < QUEUE_MAX;
      if ok {
        items := items + [frame];
      } else {
        dropped := dropped + 1;
      }
    }

    method GetNowait() returns (frame: Option<Frame>)
      modifies this
      ensures So() == Taken(old(So()))
      ensures frame == if old(items) == [] then None else Some(old(items)[0])
    {
      if items == [] {
        return None;
      }
      frame := Some(items[0]);
      drained := drained + [items[0]];
      items := items[1..];
    }
  }

  class FrameHub {
    var subs: map<nat, seq<Queue>>

    constructor ()
      ensures subs == map[]
    {
      subs := map[];
    }

    function Subscribers(inst: nat): seq<Queue>
      reads this
    {
      if inst in subs then subs[inst] else []
    }

    ghost predicate Valid()
      reads this
    {
      forall inst <- subs, i, j :: 0 <= i < j < |subs[inst]| ==> subs[inst][i] != subs[inst][j]
    }

    method Subscribe(inst: nat) returns (q: Queue)
      requires Valid()
      modifies this
      ensures fresh(q) && q.So() == UNUSED
      ensures subs == old(subs)[inst := old(Subscribers(inst)) + [q]]
    {
      q := new Queue();
      subs := subs[inst := (if inst in subs then subs[inst] else []) + [q]];
    }

    method Unsubscribe(inst: nat, q: Queue)
      modifies this
      ensures Subscribers(inst) == Without(old(Subscribers(inst)), q)
      ensures forall j: nat :: j != inst ==> Subscribers(j) == old(Subscribers(j))
    {
      NothingWithout(Subscribers(inst), q);
      if inst in subs && q in subs[inst] {
        var left := Without(subs[inst], q);
        subs := if left == [] then subs - {inst} else subs[inst := left];
      }
    }

    /** Puts the frame once into every queue of the snapshot, full or not, and touches no other queue. */
    method PublishLocal(inst: nat, frame: Frame)
      requires Valid()
      modifies set q | q in Subscribers(inst)
      ensures forall q <- Subscribers(inst) :: q.So() == Offered(old(q.So()), frame)
    {
      var snapshot := Subscribers(inst);
      for k := 0 to |snapshot|
        invariant forall i :: 0 <= i < k ==> snapshot[i].So() == Offered(old(snapshot[i].So()), frame)
        invariant forall i :: k <= i < |snapshot| ==> snapshot[i].So() == old(snapshot[i].So())
      {
        var _ := snapshot[k].PutNowait(frame);
      }
    }
  }

  lemma {:induction false} NothingWithout<T>(ids: seq<T>, q: T)
    ensures q !in ids ==> Without(ids, q) == ids
  {
    if ids != [] {
      NothingWithout(ids[1..], q);
    }
  }

  // ---- Interleaved steps ----

  /** A client and its queue; `from` is how many frames its instrument had published when it subscribed. */
  datatype Client = Client(inst: nat, from: nat, queue: History)

  /** A publication under way: the frame, and the snapshot's clients that still wait for it. */
  datatype Pending = Pending(frame: Frame, rest: seq<nat>)

  /** The hub between two steps; clients are numbered in the order in which they came. */
  datatype Hub = Hub(
    clients: seq<Client>, subs: map<nat, seq<nat>>, pending: map<nat, Pending>, published: map<nat, seq<Frame>>)

  const EMPTY := Hub([], map[], map[], map[])

  datatype Event =
    | Subscribe(inst: nat)
    | Unsubscribe(inst: nat, id: nat)
    | Snapshot(inst: nat, frame: Frame)
    | PutNext(inst: nat)
    | Drain(id: nat)

  function SubsOf(h: Hub, inst: nat): seq<nat> { if inst in h.subs then h.subs[inst] else [] }

  function PublishedBy(h: Hub, inst: nat): seq<Frame> { if inst in h.published then h.published[inst] else [] }

  /** The clients that the publisher of an instrument has still to serve; none when it is idle. */
  function Rest(h: Hub, inst: nat): seq<nat> { if inst in h.pending then h.pending[inst].rest else [] }

  function Served(clients: seq<Client>, id: nat, frame: Frame): seq<Client> {
    if id < |clients| then clients[id := clients[id].(queue := Offered(clients[id].queue, frame))] else clients
  }

  function Step(h: Hub, e: Event): Hub {
    match e
    case Subscribe(inst) =>
      h.(subs := h.subs[inst := SubsOf(h, inst) + [|h.clients|]],
         clients := h.clients + [Client(inst, |PublishedBy(h, inst)|, UNUSED)])
    case Unsubscribe(inst, id) =>
      h.(subs := h.subs[inst := Without(SubsOf(h, inst), id)])
    case Snapshot(inst, frame) =>
      if Rest(h, inst) != [] then h
      else h.(pending := h.pending[inst := Pending(frame, SubsOf(h, inst))],
              published := h.published[inst := PublishedBy(h, inst) + [frame]])
    case PutNext(inst) =>
      if Rest(h, inst) == [] then h
      else
        var p := h.pending[inst];
        h.(pending := h.pending[inst := p.(rest := p.rest[1..])], clients := Served(h.clients, p.rest[0], p.frame))
    case Drain(id) =>
      if id < |h.clients| then
        h.(clients := h.clients[id := h.clients[id].(queue := Taken(h.clients[id].queue))])
      else h
  }

  function Run(h: Hub, events: seq<Event>): Hub
    decreases |events|
  {
    if events == [] then h else Run(Step(h, events[0]), events[1..])
  }

  // ---- What every step keeps ----

  /** `a` is `b` with some elements left out. */
  predicate Subsequence(a: seq<Frame>, b: seq<Frame>)
    decreases |b|
  {
    a == [] || (b != [] && (
      || (a[|a| - 1] == b[|b| - 1] && Subsequence(a[..|a| - 1], b[..|b| - 1]))
      || Subsequence(a, b[..|b| - 1])))
  }

  lemma SubsequenceGrows(a: seq<Frame>, b: seq<Frame>, x: Frame)
    requires Subsequence(a, b)
    ensures Subsequence(a, b + [x]) && Subsequence(a + [x], b + [x])
  {
    assert (b + [x])[..|b + [x]| - 1] == b && (a + [x])[..|a + [x]| - 1] == a;
  }

  /** What a client has seen and will see is what was put to its queue, less what the full queue dropped. */
  predicate InOrder(q: History) {
    && Subsequence(q.drained + q.items, q.offered)
    && |q.items| <= QUEUE_MAX
    && (q.dropped == 0 ==> q.drained + q.items == q.offered)
  }

  lemma QueueKeepsOrder(q: History, frame: Frame)
    requires InOrder(q)
    ensures InOrder(Offered(q, frame)) && InOrder(Taken(q))
  {
    SubsequenceGrows(q.drained + q.items, q.offered, frame);
    assert q.drained + (q.items + [frame]) == q.drained + q.items + [frame];
    if q.items != [] {
      assert q.drained + [q.items[0]] + q.items[1..] == q.drained + q.items;
    }
  }

  /** The frame that a client of an instrument still waits for. */
  function Awaited(h: Hub, inst: nat, id: nat): Option<Frame> {
    if id in Rest(h, inst) then Some(h.pending[inst].frame) else None
  }

  /**
   Of all the frames of its instrument a client was assigned those since it subscribed: all of them while it is
   subscribed or waits for one, a first part of them after that.
   */
  predicate Covers(c: Client, subscribed: bool, awaited: Option<Frame>, all: seq<Frame>) {
    var mine := c.queue.offered + if awaited.Some? then [awaited.value] else [];
    && c.from + |mine| <= |all| && mine == all[c.from..c.from + |mine|]
    && (subscribed || awaited.Some? ==> c.from + |mine| == |all|)
  }

  lemma CoversNew(inst: nat, all: seq<Frame>)
    ensures Covers(Client(inst, |all|, UNUSED), true, None, all)
  {
  }

  lemma CoversSnapshot(c: Client, subscribed: bool, all: seq<Frame>, frame: Frame)
    requires Covers(c, subscribed, None, all)
    ensures Covers(c, subscribed, if subscribed then Some(frame) else None, all + [frame])
  {
    assert c.queue.offered + [] == c.queue.offered;
  }

  lemma CoversPut(c: Client, subscribed: bool, all: seq<Frame>, frame: Frame)
    requires Covers(c, subscribed, Some(frame), all)
    ensures Covers(c.(queue := Offered(c.queue, frame)), subscribed, None, all)
  {
    assert c.queue.offered + [frame] + [] == c.queue.offered + [frame];
  }

  lemma CoversDrained(c: Client, subscribed: bool, awaited: Option<Frame>, all: seq<Frame>)
    requires Covers(c, subscribed, awaited, all)
    ensures Covers(c.(queue := Taken(c.queue)), subscribed, awaited, all)
  {
  }

  lemma CoversUnsubscribed(c: Client, awaited: Option<Frame>, all: seq<Frame>)
    requires Covers(c, true, awaited, all)
    ensures Covers(c, false, awaited, all)
  {
  }

  function InstOf(c: Client): nat { c.inst }

  /** A list that names clients of one instrument, each at most once; `insts` are the instruments of all clients. */
  predicate Listed(insts: seq<nat>, inst: nat, ids: seq<nat>) {
    && (forall i :: 0 <= i < |ids| ==> ids[i] < |insts| && insts[ids[i]] == inst)
    && (forall i, j :: 0 <= i < j < |ids| ==> ids[i] != ids[j])
  }

  predicate ClientKept(h: Hub, id: nat)
    requires id < |h.clients|
  {
    var c := h.clients[id];
    InOrder(c.queue) && Covers(c, id in SubsOf(h, c.inst), Awaited(h, c.inst, id), PublishedBy(h, c.inst))
  }

  ghost predicate ListsKept(h: Hub) {
    forall inst: nat ::
      Listed(Map(InstOf, h.clients), inst, SubsOf(h, inst)) && Listed(Map(InstOf, h.clients), inst, Rest(h, inst))
  }

  ghost predicate Kept(h: Hub) {
    ListsKept(h) && forall id: nat :: id < |h.clients| ==> ClientKept(h, id)
  }

  lemma {:induction false} WithoutDrops(ids: seq<nat>, id: nat)
    requires forall i, j :: 0 <= i < j < |ids| ==> ids[i] != ids[j]
    ensures var r := Without(ids, id);
      && (forall k :: k in r <==> k in ids && k != id)
      && (forall i, j :: 0 <= i < j < |r| ==> r[i] != r[j])
  {
    if ids != [] {
      WithoutDrops(ids[1..], id);
      assert ids[0] !in ids[1..];
      assert forall k :: k in ids <==> k == ids[0] || k in ids[1..];
      var later := Without(ids[1..], id);
      assert forall k :: 0 <= k < |later| ==> later[k] in ids[1..];
    }
  }

  lemma WithoutKeepsListed(insts: seq<nat>, inst: nat, ids: seq<nat>, id: nat)
    requires Listed(insts, inst, ids)
    ensures Listed(insts, inst, Without(ids, id))
    ensures forall k :: k in Without(ids, id) <==> k in ids && k != id
  {
    hide Without;
    WithoutDrops(ids, id);
    var r := Without(ids, id);
    assert forall k :: 0 <= k < |r| ==> r[k] in ids;
  }

  lemma ListedLonger(insts: seq<nat>, inst: nat, ids: seq<nat>, more: nat)
    requires Listed(insts, inst, ids)
    ensures Listed(insts + [more], inst, ids)
    ensures more == inst ==> Listed(insts + [more], inst, ids + [|insts|])
  {
  }

  lemma NobodyYet(insts: seq<nat>, inst: nat, ids: seq<nat>)
    requires Listed(insts, inst, ids)
    ensures |insts| !in ids
  {
  }

  lemma ListedTail(insts: seq<nat>, inst: nat, ids: seq<nat>)
    requires Listed(insts, inst, ids) && ids != []
    ensures Listed(insts, inst, ids[1..]) && ids[0] < |insts| && insts[ids[0]] == inst
    ensures forall k :: k in ids[1..] <==> k in ids && k != ids[0]
  {
    assert forall k :: k in ids <==> k == ids[0] || k in ids[1..];
  }

  /** Lists that stay, or are those of another instant, stay listed as long as the clients do. */
  lemma ListsStay(h: Hub, v: Hub)
    requires ListsKept(h) && Map(InstOf, v.clients) == Map(InstOf, h.clients)
    requires forall i: nat :: SubsOf(v, i) == SubsOf(h, i) || Listed(Map(InstOf, h.clients), i, SubsOf(v, i))
    requires forall i: nat :: Rest(v, i) in {Rest(h, i), SubsOf(h, i)} || Listed(Map(InstOf, h.clients), i, Rest(v, i))
    ensures ListsKept(v)
  {
    hide Listed;
    forall i: nat
      ensures Listed(Map(InstOf, v.clients), i, SubsOf(v, i)) && Listed(Map(InstOf, v.clients), i, Rest(v, i))
    {
      assert Listed(Map(InstOf, h.clients), i, SubsOf(h, i)) && Listed(Map(InstOf, h.clients), i, Rest(h, i));
    }
  }

  lemma SubscribeKeeps(h: Hub, inst: nat)
    requires Kept(h)
    ensures Kept(Step(h, Event.Subscribe(inst)))
  {
    hide InOrder, Covers, Listed;
    var v := Step(h, Event.Subscribe(inst));
    var insts := Map(InstOf, h.clients);
    assert Map(InstOf, v.clients) == insts + [inst];
    forall i: nat
      ensures Listed(insts + [inst], i, SubsOf(v, i)) && Listed(insts + [inst], i, Rest(v, i))
    {
      ListedLonger(insts, i, SubsOf(h, i), inst);
      ListedLonger(insts, i, Rest(h, i), inst);
    }
    CoversNew(inst, PublishedBy(h, inst));
    QueueIsInOrderAtFirst();
    NobodyYet(insts, inst, Rest(h, inst));
    forall id: nat | id < |v.clients|
      ensures ClientKept(v, id)
    {
      if id < |h.clients| {
        assert ClientKept(h, id);
      }
    }
  }

  lemma QueueIsInOrderAtFirst()
    ensures InOrder(UNUSED)
  {
  }

  lemma UnsubscribeKeeps(h: Hub, inst: nat, id: nat)
    requires Kept(h)
    ensures Kept(Step(h, Event.Unsubscribe(inst, id)))
  {
    hide InOrder, Covers, Listed, Without;
    var v := Step(h, Event.Unsubscribe(inst, id));
    WithoutKeepsListed(Map(InstOf, h.clients), inst, SubsOf(h, inst), id);
    ListsStay(h, v);
    forall k: nat | k < |v.clients|
      ensures ClientKept(v, k)
    {
      assert ClientKept(h, k);
      var c := h.clients[k];
      if c.inst == inst && k == id && k in SubsOf(h, inst) {
        CoversUnsubscribed(c, Awaited(h, inst, k), PublishedBy(h, inst));
      }
    }
  }

  lemma SnapshotKeeps(h: Hub, inst: nat, frame: Frame)
    requires Kept(h)
    ensures Kept(Step(h, Snapshot(inst, frame)))
  {
    hide InOrder, Covers, Listed;
    var v := Step(h, Snapshot(inst, frame));
    ListsStay(h, v);
    forall k: nat | k < |v.clients|
      ensures ClientKept(v, k)
    {
      assert ClientKept(h, k);
      var c := h.clients[k];
      if c.inst == inst && Rest(h, inst) == [] {
        CoversSnapshot(c, k in SubsOf(h, inst), PublishedBy(h, inst), frame);
      }
    }
  }

  lemma PutKeeps(h: Hub, inst: nat)
    requires Kept(h)
    ensures Kept(Step(h, PutNext(inst)))
  {
    hide InOrder, Covers, Listed, Offered, ClientKept;
    var v := Step(h, PutNext(inst));
    if Rest(h, inst) != [] {
      ListedTail(Map(InstOf, h.clients), inst, h.pending[inst].rest);
      assert Map(InstOf, v.clients) == Map(InstOf, h.clients);
      ListsStay(h, v);
      forall k: nat | k < |v.clients|
        ensures ClientKept(v, k)
      {
        PutKeepsClient(h, inst, k);
      }
    }
  }

  lemma PutKeepsClient(h: Hub, inst: nat, k: nat)
    requires Kept(h) && Rest(h, inst) != [] && k < |h.clients|
    ensures k < |Step(h, PutNext(inst)).clients| && ClientKept(Step(h, PutNext(inst)), k)
  {
    PutChanges(h, inst, k);
    assert ClientKept(h, k);
    hide InOrder, Covers, Listed, Offered, Step, Awaited, SubsOf, PublishedBy, ListsKept;
    var p := h.pending[inst];
    if k == p.rest[0] {
      QueueKeepsOrder(h.clients[k].queue, p.frame);
      CoversPut(h.clients[k], k in SubsOf(h, inst), PublishedBy(h, inst), p.frame);
    }
  }

  /** What serving the next client changes for client `k`. */
  lemma PutChanges(h: Hub, inst: nat, k: nat)
    requires ListsKept(h) && Rest(h, inst) != [] && k < |h.clients|
    ensures var v, p, c := Step(h, PutNext(inst)), h.pending[inst], h.clients[k];
      && k < |v.clients|
      && v.clients[k] == (if k == p.rest[0] then c.(queue := Offered(c.queue, p.frame)) else c)
      && SubsOf(v, c.inst) == SubsOf(h, c.inst) && PublishedBy(v, c.inst) == PublishedBy(h, c.inst)
      && Awaited(v, c.inst, k) == (if k == p.rest[0] then None else Awaited(h, c.inst, k))
      && (k == p.rest[0] ==> c.inst == inst && Awaited(h, inst, k) == Some(p.frame))
  {
    hide Offered;
    var rest := h.pending[inst].rest;
    assert Listed(Map(InstOf, h.clients), inst, Rest(h, inst));
    NextOfList(Map(InstOf, h.clients), inst, rest, k);
  }

  lemma NextOfList(insts: seq<nat>, inst: nat, ids: seq<nat>, k: nat)
    requires Listed(insts, inst, ids) && ids != []
    ensures ids[0] < |insts| && insts[ids[0]] == inst
    ensures k in ids[1..] <==> k in ids && k != ids[0]
  {
    ListedTail(insts, inst, ids);
  }

  lemma DrainKeeps(h: Hub, id: nat)
    requires Kept(h)
    ensures Kept(Step(h, Drain(id)))
  {
    hide InOrder, Listed, Covers, Taken, ClientKept;
    var v := Step(h, Drain(id));
    if id < |h.clients| {
      assert Map(InstOf, v.clients) == Map(InstOf, h.clients);
      ListsStay(h, v);
      forall k: nat | k < |v.clients|
        ensures ClientKept(v, k)
      {
        DrainKeepsClient(h, id, k);
      }
    }
  }

  lemma DrainKeepsClient(h: Hub, id: nat, k: nat)
    requires id < |h.clients| && k < |h.clients| && ClientKept(h, k)
    ensures k < |Step(h, Drain(id)).clients| && ClientKept(Step(h, Drain(id)), k)
  {
    hide InOrder, Covers, Taken;
    if k == id {
      QueueKeepsOrder(h.clients[id].queue, 0);
      var inst := h.clients[id].inst;
      CoversDrained(h.clients[id], id in SubsOf(h, inst), Awaited(h, inst, id), PublishedBy(h, inst));
    }
  }

  lemma StepKeeps(h: Hub, e: Event)
    requires Kept(h)
    ensures Kept(Step(h, e))
  {
    hide Kept, Step;
    match e
    case Subscribe(inst) => SubscribeKeeps(h, inst);
    case Unsubscribe(inst, id) => UnsubscribeKeeps(h, inst, id);
    case Snapshot(inst, frame) => SnapshotKeeps(h, inst, frame);
    case PutNext(inst) => PutKeeps(h, inst);
    case Drain(id) => DrainKeeps(h, id);
  }

  lemma {:induction false} RunKeeps(h: Hub, events: seq<Event>)
    requires Kept(h)
    ensures Kept(Run(h, events))
    decreases |events|
  {
    hide Kept, Step;
    if events != [] {
      StepKeeps(h, events[0]);
      RunKeeps(Step(h, events[0]), events[1..]);
    }
  }

  /** What the client's instrument has published since it subscribed. */
  function Since(h: Hub, id: nat): seq<Frame>
    requires id < |h.clients|
  {
    var all, from := PublishedBy(h, h.clients[id].inst), h.clients[id].from;
    if from <= |all| then all[from..] else []
  }

  /**
   Fan-out: over every interleaving, what a client has drained and what waits for it is an in-order selection from the
   frames its instrument has published since it subscribed; never more than 256 wait; and while it is subscribed and
   nothing is under way it is all of them, unless its queue was full once.
   */
  lemma ClientsSeeTheRun(events: seq<Event>, id: nat)
    requires id < |Run(EMPTY, events).clients|
    ensures var h := Run(EMPTY, events);
      var q, subscribed := h.clients[id].queue, id in SubsOf(h, h.clients[id].inst);
      && Subsequence(q.drained + q.items, Since(h, id)) && |q.items| <= 256
      && (q.dropped == 0 && subscribed && Rest(h, h.clients[id].inst) == [] ==> q.drained + q.items == Since(h, id))
  {
    assert Kept(EMPTY);
    RunKeeps(EMPTY, events);
    var h := Run(EMPTY, events);
    hide Run, Subsequence, ListsKept;
    assert ClientKept(h, id);
    ClientSeesItsRun(h, id);
  }

  lemma ClientSeesItsRun(h: Hub, id: nat)
    requires id < |h.clients| && ClientKept(h, id)
    ensures var q, subscribed := h.clients[id].queue, id in SubsOf(h, h.clients[id].inst);
      && Subsequence(q.drained + q.items, Since(h, id)) && |q.items| <= 256
      && (q.dropped == 0 && subscribed && Rest(h, h.clients[id].inst) == [] ==> q.drained + q.items == Since(h, id))
  {
    hide Subsequence;
    var c, since := h.clients[id], Since(h, id);
    var mine := c.queue.offered;
    assert mine + [] == mine;
    assert since == mine + since[|mine|..];
    SubsequenceOfMore(c.queue.drained + c.queue.items, mine, since[|mine|..]);
  }

  lemma {:induction false} SubsequenceOfMore(a: seq<Frame>, b: seq<Frame>, more: seq<Frame>)
    requires Subsequence(a, b)
    ensures Subsequence(a, b + more)
    decreases |more|
  {
    hide Subsequence;
    if more == [] {
      assert b + more == b;
    } else {
      var init, x := more[..|more| - 1], more[|more| - 1];
      SubsequenceOfMore(a, b, init);
      SubsequenceGrows(a, b + init, x);
      assert b + init + [x] == b + more;
    }
  }

  // ---- Draining, and leaving ----

  function Drains(id: nat, n: nat): seq<Event> { if n == 0 then [] else [Drain(id)] + Drains(id, n - 1) }

  /** As many drains as frames wait take all of them, in order. */
  lemma {:induction false} DrainsEmptyTheQueue(h: Hub, id: nat)
    requires id < |h.clients|
    ensures var q, v := h.clients[id].queue, Run(h, Drains(id, |h.clients[id].queue.items|));
      && id < |v.clients| && v.clients[id].queue.items == [] && v.clients[id].queue.drained == q.drained + q.items
    decreases |h.clients[id].queue.items|
  {
    var q := h.clients[id].queue;
    if q.items != [] {
      var events := Drains(id, |q.items|);
      assert events[0] == Drain(id) && events[1..] == Drains(id, |q.items| - 1);
      DrainsEmptyTheQueue(Step(h, Drain(id)), id);
      assert q.drained + [q.items[0]] + q.items[1..] == q.drained + q.items;
    }
  }

  /** Not subscribed, and no put to it under way. */
  predicate Deaf(h: Hub, id: nat) {
    id < |h.clients| && id !in SubsOf(h, h.clients[id].inst) && id !in Rest(h, h.clients[id].inst)
  }

  lemma UnsubscribedIsDeaf(h: Hub, id: nat)
    requires ListsKept(h) && id < |h.clients| && id !in Rest(h, h.clients[id].inst)
    ensures Deaf(Step(h, Unsubscribe(h.clients[id].inst, id)), id)
  {
    var inst := h.clients[id].inst;
    assert Listed(Map(InstOf, h.clients), inst, SubsOf(h, inst));
    WithoutDrops(SubsOf(h, inst), id);
    assert SubsOf(Step(h, Unsubscribe(inst, id)), inst) == Without(SubsOf(h, inst), id);
  }

  /** No step puts a frame to a deaf client. */
  lemma StepLeavesDeaf(h: Hub, e: Event, id: nat)
    requires ListsKept(h) && Deaf(h, id)
    ensures Deaf(Step(h, e), id) && Step(h, e).clients[id].queue.offered == h.clients[id].queue.offered
  {
    var inst := h.clients[id].inst;
    match e
    case Unsubscribe(i, other) =>
      assert Listed(Map(InstOf, h.clients), i, SubsOf(h, i));
      WithoutDrops(SubsOf(h, i), other);
    case PutNext(i) =>
      assert Listed(Map(InstOf, h.clients), i, Rest(h, i));
      assert Rest(h, i) != [] ==> Rest(h, i)[0] != id;
    case _ =>
  }

  lemma {:induction false} DeafStaysDeaf(h: Hub, events: seq<Event>, id: nat)
    requires Kept(h) && Deaf(h, id)
    ensures Deaf(Run(h, events), id)
    ensures Run(h, events).clients[id].queue.offered == h.clients[id].queue.offered
    decreases |events|
  {
    hide Step, Deaf, ListsKept, ClientKept;
    if events != [] {
      StepLeavesDeaf(h, events[0], id);
      StepKeeps(h, events[0]);
      DeafStaysDeaf(Step(h, events[0]), events[1..], id);
    }
  }

  /** Who has left while nothing was under way to it is put no frame any more, whatever happens. */
  lemma WhoLeavesHearsNoMore(events: seq<Event>, later: seq<Event>, id: nat)
    requires var h := Run(EMPTY, events); id < |h.clients| && id !in Rest(h, h.clients[id].inst)
    ensures var h := Run(EMPTY, events);
      var v := Run(Step(h, Unsubscribe(h.clients[id].inst, id)), later);
      id < |v.clients| && v.clients[id].queue.offered == h.clients[id].queue.offered
  {
    assert Kept(EMPTY);
    RunKeeps(EMPTY, events);
    var h := Run(EMPTY, events);
    var leave := Unsubscribe(h.clients[id].inst, id);
    UnsubscribedIsDeaf(h, id);
    StepKeeps(h, leave);
    hide Run, ClientKept, ListsKept;
    DeafStaysDeaf(Step(h, leave), later, id);
  }
}
