/**
 Runs of the hub, with the replay of a taken queue as steps of its own between the locked steps of
 everyone else: where each queued message goes, in which order, and the one order that is not kept.
 */
module HubRuns {
  import opened Wrappers
  import opened Sorting
  import opened Hub

  /** How a queued message left its queue. */
  datatype Departure = Expired(message: Message) | HandedTo(message: Message, connection: Connection)

  /** The hub, the replays under way, the clock, and the history that the guarantees speak about. */
  datatype System = System(
    hub: State,
    pending: map<Connection, seq<Message>>,
    clock: nat,
    owner: map<Connection, User>,
    taken: map<Connection, seq<Message>>,
    enqueued: map<User, seq<Message>>,
    departed: map<User, seq<Departure>>)

  datatype Step =
    | Connect(user: User, connection: Connection, now: nat)
    | ReplayOne(connection: Connection)
    | Hangup(connection: Connection)
    | Disconnect(user: User, connection: Connection, now: nat)
    | Send(user: User, message: Message, now: nat)
    | Cleanup(now: nat)

  const IDLE := System(State(map[], map[], map[]), map[], 0, map[], map[], map[], map[])

  function Enqueued(s: System, user: User): seq<Message> {
    if user in s.enqueued then s.enqueued[user] else []
  }

  function Departed(s: System, user: User): seq<Departure> {
    if user in s.departed then s.departed[user] else []
  }

  function Pending(s: System, c: Connection): seq<Message> {
    if c in s.pending then s.pending[c] else []
  }

  /** The messages that a clean-up at `now` removes from a queue. */
  function Lapsed(q: seq<Queued>, now: nat): seq<Queued> {
    if q == [] then []
    else Lapsed(q[..|q| - 1], now) + (if q[|q| - 1].expires > now then [] else [q[|q| - 1]])
  }

  function Expiries(ms: seq<Message>): seq<Departure> {
    seq(|ms|, i requires 0 <= i < |ms| => Expired(ms[i]))
  }

  function Handovers(ms: seq<Message>, c: Connection): seq<Departure> {
    seq(|ms|, i requires 0 <= i < |ms| => HandedTo(ms[i], c))
  }

  /** Every clean-up is recorded before whatever follows it. */
  function Swept(s: System, now: nat): System {
    s.(clock := now,
       hub := Pruned(s.hub, now),
       departed := map u | u in s.departed.Keys + s.hub.queues.Keys ::
                     Departed(s, u) + Expiries(Messages(Lapsed(QueueOf(s.hub, u), now))))
  }

  function Next(s: System, e: Step, ttl: nat): System {
    match e
    case Connect(user, c, now) =>
      if now < s.clock || c in s.owner then s
      else
        var p := Swept(s, now);
        var queue := Messages(QueueOf(p.hub, user));
        p.(hub := Attached(s.hub, user, c, now),
           pending := p.pending[c := Taken(s.hub, user, now)],
           owner := p.owner[c := user],
           taken := p.taken[c := queue],
           departed := p.departed[user := Departed(p, user) + Handovers(queue, c)])
    case ReplayOne(c) =>
      if c !in s.pending then s
      else if s.pending[c] == [] then s.(pending := s.pending - {c})
      else s.(hub := s.hub.(mailboxes := Push(s.hub.mailboxes, c, Replayed(s.pending[c][0]))),
              pending := s.pending[c := s.pending[c][1..]])
    case Hangup(c) =>
      if c in s.pending || c !in s.hub.mailboxes then s
      else s.(hub := s.hub.(mailboxes := s.hub.mailboxes[c := s.hub.mailboxes[c].(open := false)]))
    case Disconnect(user, c, now) =>
      if now < s.clock then s else Swept(s, now).(hub := Detached(s.hub, user, c, now))
    case Send(user, m, now) =>
      if now < s.clock then s
      else
        var p := Swept(s, now);
        p.(hub := Sent(s.hub, user, m, now, ttl),
           enqueued := if Reachable(p.hub, user) == {} then p.enqueued[user := Enqueued(p, user) + [m]] else p.enqueued)
    case Cleanup(now) => if now < s.clock then s else Swept(s, now)
  }

  function After(steps: seq<Step>, ttl: nat, n: nat): System
    requires n <= |steps|
  {
    if n == 0 then IDLE else Next(After(steps, ttl, n - 1), steps[n - 1], ttl)
  }

  // ------------------------------------------------------------ queues

  predicate SortedQueue(q: seq<Queued>) {
    forall i, j :: 0 <= i < j < |q| ==> q[i].expires <= q[j].expires
  }

  lemma {:induction false} SplitByExpiry(q: seq<Queued>, now: nat)
    ensures forall i :: 0 <= i < |Lapsed(q, now)| ==> Lapsed(q, now)[i].expires <= now
    ensures forall i :: 0 <= i < |Unexpired(q, now)| ==> Unexpired(q, now)[i].expires > now
    ensures Unexpired(q, now) != [] ==> Unexpired(q, now)[0] in q
  {
    if q != [] {
      SplitByExpiry(q[..|q| - 1], now);
    }
  }

  /** Expiry removes a prefix: nothing that stays was queued before something that goes. */
  lemma {:induction false} ExpiryIsPrefix(q: seq<Queued>, now: nat)
    requires SortedQueue(q)
    ensures q == Lapsed(q, now) + Unexpired(q, now)
    ensures forall i :: 0 <= i < |Lapsed(q, now)| ==> Lapsed(q, now)[i].expires <= now
    ensures forall i :: 0 <= i < |Unexpired(q, now)| ==> Unexpired(q, now)[i].expires > now
  {
    hide Lapsed, Unexpired, SortedQueue;
    SplitByExpiry(q, now);
    ExpiryStep(q, now);
    if q != [] {
      var n := |q| - 1;
      var front := q[..n];
      FrontSorted(q);
      ExpiryIsPrefix(front, now);
      SplitByExpiry(front, now);
      if Unexpired(front, now) != [] {
        LateIsLast(q, Unexpired(front, now)[0]);
      }
      assert q == front + [q[n]];
    }
  }

  lemma ExpiryStep(q: seq<Queued>, now: nat)
    ensures q == [] ==> Lapsed(q, now) == [] && Unexpired(q, now) == []
    ensures q != [] ==>
              var last, front := q[|q| - 1], q[..|q| - 1];
              && Lapsed(q, now) == Lapsed(front, now) + (if last.expires > now then [] else [last])
              && Unexpired(q, now) == Unexpired(front, now) + (if last.expires > now then [last] else [])
  {
  }

  lemma FrontSorted(q: seq<Queued>)
    requires SortedQueue(q) && q != []
    ensures SortedQueue(q[..|q| - 1])
  {
  }

  lemma LateIsLast(q: seq<Queued>, m: Queued)
    requires SortedQueue(q) && q != [] && m in q[..|q| - 1]
    ensures m.expires <= q[|q| - 1].expires
  {
  }

  lemma {:induction false} MessagesAppend(a: seq<Queued>, b: seq<Queued>)
    ensures Messages(a + b) == Messages(a) + Messages(b)
  {
    if b == [] {
      assert a + b == a;
    } else {
      var n := |b| - 1;
      assert (a + b)[..|a + b| - 1] == a + b[..n];
      MessagesAppend(a, b[..n]);
    }
  }

  // ------------------------------------------------------------ the invariant

  ghost predicate QueuesOk(s: System, ttl: nat) {
    forall u :: u in s.hub.queues ==>
      && s.hub.queues[u] != []
      && u !in s.hub.connections
      && SortedQueue(s.hub.queues[u])
      && forall i :: 0 <= i < |s.hub.queues[u]| ==> s.hub.queues[u][i].expires <= s.clock + ttl
  }

  predicate ConnectionsOk(s: System) {
    && (forall u :: u in s.hub.connections ==> s.hub.connections[u] != {})
    && (forall u, c :: u in s.hub.connections && c in s.hub.connections[u] ==> c in s.owner && s.owner[c] == u)
    && s.owner.Keys == s.hub.mailboxes.Keys
    && s.taken.Keys == s.owner.Keys
    && (forall c :: c in s.pending ==> IsOpen(s.hub, c))
  }

  function MessagesOf(ds: seq<Departure>): seq<Message> {
    seq(|ds|, i requires 0 <= i < |ds| => ds[i].message)
  }

  /** Every message that was ever queued for a user has left, in order, or is still queued behind those that left. */
  ghost predicate Conserved(s: System) {
    forall u :: Enqueued(s, u) == MessagesOf(Departed(s, u)) + Messages(QueueOf(s.hub, u))
  }

  function HandedOver(ds: seq<Departure>, c: Connection): seq<Message> {
    if ds == [] then []
    else
      var d := ds[|ds| - 1];
      HandedOver(ds[..|ds| - 1], c) + (if d.HandedTo? && d.connection == c then [d.message] else [])
  }

  function ReplaysIn(inbox: seq<Delivery>): seq<Message> {
    if inbox == [] then []
    else
      var d := inbox[|inbox| - 1];
      ReplaysIn(inbox[..|inbox| - 1]) + (if d.Replayed? then [d.message] else [])
  }

  /** What a connection took is what its user's queue handed to it, and is replayed to it in order. */
  ghost predicate ReplaysOk(s: System) {
    forall c :: c in s.owner && c in s.taken && c in s.hub.mailboxes ==>
      && s.taken[c] == HandedOver(Departed(s, s.owner[c]), c)
      && s.taken[c] == ReplaysIn(s.hub.mailboxes[c].inbox) + Pending(s, c)
  }

  /** Messages are handed to connections of their own user only. */
  ghost predicate HandedHome(s: System) {
    forall u, i :: 0 <= i < |Departed(s, u)| && Departed(s, u)[i].HandedTo? ==>
      Departed(s, u)[i].connection in s.owner && s.owner[Departed(s, u)[i].connection] == u
  }

  ghost predicate Inv(s: System, ttl: nat) {
    QueuesOk(s, ttl) && ConnectionsOk(s) && Conserved(s) && ReplaysOk(s) && HandedHome(s)
  }

  // ------------------------------------------------------------ keeping it

  lemma {:induction false} HandedOverAppend(a: seq<Departure>, b: seq<Departure>, c: Connection)
    ensures HandedOver(a + b, c) == HandedOver(a, c) + HandedOver(b, c)
  {
    if b == [] {
      assert a + b == a;
    } else {
      var n := |b| - 1;
      assert (a + b)[..|a + b| - 1] == a + b[..n];
      HandedOverAppend(a, b[..n], c);
    }
  }

  lemma {:induction false} ExpiriesHandNothing(ms: seq<Message>, c: Connection)
    ensures HandedOver(Expiries(ms), c) == []
  {
    if ms != [] {
      var n := |ms| - 1;
      assert Expiries(ms)[..n] == Expiries(ms[..n]);
      ExpiriesHandNothing(ms[..n], c);
    }
  }

  lemma {:induction false} HandoversHandAll(ms: seq<Message>, c: Connection, d: Connection)
    ensures HandedOver(Handovers(ms, c), d) == if c == d then ms else []
  {
    if ms != [] {
      var n := |ms| - 1;
      assert Handovers(ms, c)[..n] == Handovers(ms[..n], c);
      HandoversHandAll(ms[..n], c, d);
    }
  }

  lemma {:induction false} NothingHanded(ds: seq<Departure>, c: Connection)
    requires forall i :: 0 <= i < |ds| && ds[i].HandedTo? ==> ds[i].connection != c
    ensures HandedOver(ds, c) == []
  {
    if ds != [] {
      NothingHanded(ds[..|ds| - 1], c);
    }
  }

  lemma PrunedQueue(hub: State, now: nat, u: User)
    ensures QueueOf(Pruned(hub, now), u) == Unexpired(QueueOf(hub, u), now)
  {
    ExpiryStep([], now);
  }

  lemma SweptQueue(s: System, ttl: nat, now: nat, u: User)
    requires QueuesOk(s, ttl)
    ensures QueueOf(Swept(s, now).hub, u) == Unexpired(QueueOf(s.hub, u), now)
    ensures QueueOf(s.hub, u) == Lapsed(QueueOf(s.hub, u), now) + QueueOf(Swept(s, now).hub, u)
    ensures Departed(Swept(s, now), u) == Departed(s, u) + Expiries(Messages(Lapsed(QueueOf(s.hub, u), now)))
  {
    hide Lapsed, Unexpired, Pruned, Messages, SortedQueue;
    PrunedQueue(s.hub, now, u);
    EmptyQueueSorted();
    ExpiryIsPrefix(QueueOf(s.hub, u), now);
    ExpiryStep([], now);
    NoMessages();
    if u !in s.departed.Keys + s.hub.queues.Keys {
      assert Expiries([]) == [];
    }
  }

  lemma EmptyQueueSorted()
    ensures SortedQueue([])
  {
  }

  /** A clean-up keeps everything in its place. */
  lemma SweepKeeps(s: System, ttl: nat, now: nat)
    requires Inv(s, ttl) && now >= s.clock
    ensures Inv(Swept(s, now), ttl)
  {
    hide QueuesOk, Conserved, ReplaysOk, HandedHome, Swept;
    SweptMeans(s, now);
    SweepKeepsQueues(s, ttl, now);
    SweepConserves(s, ttl, now);
    SweepKeepsReplays(s, ttl, now);
    SweepKeepsHandovers(s, ttl, now);
  }

  lemma SweepConserves(s: System, ttl: nat, now: nat)
    requires QueuesOk(s, ttl) && Conserved(s)
    ensures Conserved(Swept(s, now))
  {
    hide QueuesOk, Unexpired, Lapsed, Expiries, MessagesOf, Messages, Swept, Departed, QueueOf;
    var n := Swept(s, now);
    SweptMeans(s, now);
    forall u
      ensures Enqueued(n, u) == MessagesOf(Departed(n, u)) + Messages(QueueOf(n.hub, u))
    {
      var lapsed := Lapsed(QueueOf(s.hub, u), now);
      SweptQueue(s, ttl, now, u);
      MessagesAppend(lapsed, QueueOf(n.hub, u));
      ExpiryMessages(Departed(s, u), Messages(lapsed));
      assert Enqueued(s, u) == MessagesOf(Departed(s, u)) + Messages(QueueOf(s.hub, u));
    }
  }

  lemma SweepKeepsReplays(s: System, ttl: nat, now: nat)
    requires QueuesOk(s, ttl) && ReplaysOk(s)
    ensures ReplaysOk(Swept(s, now))
  {
    hide QueuesOk, Unexpired, Lapsed, Expiries, HandedOver, ReplaysIn, Messages, Swept, Departed, QueueOf;
    var n := Swept(s, now);
    SweptMeans(s, now);
    forall c | c in n.owner && c in n.taken && c in n.hub.mailboxes
      ensures n.taken[c] == HandedOver(Departed(n, n.owner[c]), c)
      ensures n.taken[c] == ReplaysIn(n.hub.mailboxes[c].inbox) + Pending(n, c)
    {
      var u := n.owner[c];
      var lapsed := Messages(Lapsed(QueueOf(s.hub, u), now));
      SweptQueue(s, ttl, now, u);
      HandedOverAppend(Departed(s, u), Expiries(lapsed), c);
      ExpiriesHandNothing(lapsed, c);
    }
  }

  lemma SweepKeepsHandovers(s: System, ttl: nat, now: nat)
    requires QueuesOk(s, ttl) && HandedHome(s)
    ensures HandedHome(Swept(s, now))
  {
    hide QueuesOk, Unexpired, Lapsed, Expiries, Messages, Swept, Departed, QueueOf;
    var n := Swept(s, now);
    SweptMeans(s, now);
    forall u, i | 0 <= i < |Departed(n, u)| && Departed(n, u)[i].HandedTo?
      ensures Departed(n, u)[i].connection in n.owner && n.owner[Departed(n, u)[i].connection] == u
    {
      SweptQueue(s, ttl, now, u);
      OldHandover(Departed(s, u), Messages(Lapsed(QueueOf(s.hub, u), now)), i);
      assert Departed(s, u)[i].HandedTo?;
    }
  }

  lemma SweptMeans(s: System, now: nat)
    ensures var n := Swept(s, now);
            && n.pending == s.pending && n.owner == s.owner && n.taken == s.taken && n.enqueued == s.enqueued
            && n.hub.connections == s.hub.connections && n.hub.mailboxes == s.hub.mailboxes && n.clock == now
            && n.hub == Pruned(s.hub, now)
  {
  }

  lemma UnexpiredSorted(q: seq<Queued>, now: nat)
    requires SortedQueue(q)
    ensures SortedQueue(Unexpired(q, now))
    ensures forall i :: 0 <= i < |Unexpired(q, now)| ==> Unexpired(q, now)[i] in q
  {
    hide Lapsed, Unexpired;
    ExpiryIsPrefix(q, now);
    var k := |Lapsed(q, now)|;
    var rest := Unexpired(q, now);
    assert forall i :: 0 <= i < |rest| ==> rest[i] == q[k + i];
  }

  lemma SweepKeepsQueues(s: System, ttl: nat, now: nat)
    requires QueuesOk(s, ttl) && now >= s.clock
    ensures QueuesOk(Swept(s, now), ttl)
  {
    hide Unexpired, SortedQueue, Lapsed, Expiries, Messages, Departed;
    var n := Swept(s, now);
    forall u | u in n.hub.queues
      ensures n.hub.queues[u] != [] && u !in n.hub.connections && SortedQueue(n.hub.queues[u])
      ensures forall i :: 0 <= i < |n.hub.queues[u]| ==> n.hub.queues[u][i].expires <= n.clock + ttl
    {
      UnexpiredSorted(s.hub.queues[u], now);
    }
  }

  lemma ExpiryMessages(ds: seq<Departure>, ms: seq<Message>)
    ensures MessagesOf(ds + Expiries(ms)) == MessagesOf(ds) + ms
  {
  }

  lemma HandoverMessages(ds: seq<Departure>, ms: seq<Message>, c: Connection)
    ensures MessagesOf(ds + Handovers(ms, c)) == MessagesOf(ds) + ms
  {
  }

  lemma OldHandover(ds: seq<Departure>, ms: seq<Message>, i: nat)
    requires i < |ds + Expiries(ms)| && (ds + Expiries(ms))[i].HandedTo?
    ensures i < |ds| && (ds + Expiries(ms))[i] == ds[i]
  {
  }

  lemma ConnectKeeps(s: System, ttl: nat, user: User, c: Connection, now: nat)
    requires Inv(s, ttl) && now >= s.clock && c !in s.owner
    ensures Inv(Next(s, Connect(user, c, now), ttl), ttl)
  {
    hide Swept, QueuesOk, ConnectionsOk, Conserved, ReplaysOk, HandedHome, Next;
    SweepKeeps(s, ttl, now);
    ConnectKeepsTables(s, ttl, user, c, now);
    ConnectConserves(s, ttl, user, c, now);
    ConnectKeepsReplays(s, ttl, user, c, now);
    ConnectKeepsHandovers(s, ttl, user, c, now);
  }

  lemma ConnectKeepsTables(s: System, ttl: nat, user: User, c: Connection, now: nat)
    requires now >= s.clock && c !in s.owner && QueuesOk(Swept(s, now), ttl) && ConnectionsOk(Swept(s, now))
    ensures QueuesOk(Next(s, Connect(user, c, now), ttl), ttl) && ConnectionsOk(Next(s, Connect(user, c, now), ttl))
  {
    hide Swept, QueuesOk, ConnectionsOk, Next;
    ConnectKeepsQueues(s, ttl, user, c, now);
    ConnectKeepsConnections(s, ttl, user, c, now);
  }

  lemma ConnectKeepsQueues(s: System, ttl: nat, user: User, c: Connection, now: nat)
    requires now >= s.clock && c !in s.owner && QueuesOk(Swept(s, now), ttl)
    ensures QueuesOk(Next(s, Connect(user, c, now), ttl), ttl)
  {
    hide Handovers, Messages, Swept, Surviving, SortedQueue, Departed, Taken;
    SweptMeans(s, now);
  }

  lemma ConnectKeepsConnections(s: System, ttl: nat, user: User, c: Connection, now: nat)
    requires now >= s.clock && c !in s.owner && ConnectionsOk(Swept(s, now))
    ensures ConnectionsOk(Next(s, Connect(user, c, now), ttl))
  {
    hide Handovers, Messages, Swept, Surviving, Departed, Taken, QueueOf;
    SweptMeans(s, now);
  }

  lemma ConnectConserves(s: System, ttl: nat, user: User, c: Connection, now: nat)
    requires now >= s.clock && c !in s.owner && Conserved(Swept(s, now))
    ensures Conserved(Next(s, Connect(user, c, now), ttl))
  {
    hide Handovers, MessagesOf, Messages, Swept, Surviving;
    SweptMeans(s, now);
    var p := Swept(s, now);
    var n := Next(s, Connect(user, c, now), ttl);
    NoMessages();
    forall u
      ensures Enqueued(n, u) == MessagesOf(Departed(n, u)) + Messages(QueueOf(n.hub, u))
    {
      assert Enqueued(p, u) == MessagesOf(Departed(p, u)) + Messages(QueueOf(p.hub, u));
      HandoverMessages(Departed(p, user), Messages(QueueOf(p.hub, user)), c);
    }
  }

  lemma ConnectKeepsReplays(s: System, ttl: nat, user: User, c: Connection, now: nat)
    requires now >= s.clock && c !in s.owner && ReplaysOk(Swept(s, now)) && HandedHome(Swept(s, now)) && ConnectionsOk(Swept(s, now))
    ensures ReplaysOk(Next(s, Connect(user, c, now), ttl))
  {
    hide HandedOver, ReplaysIn, Handovers, Messages, Swept, Surviving;
    SweptMeans(s, now);
    var p := Swept(s, now);
    var n := Next(s, Connect(user, c, now), ttl);
    var queue := Messages(QueueOf(p.hub, user));
    NoMessages();
    forall d | d in n.owner && d in n.taken && d in n.hub.mailboxes
      ensures n.taken[d] == HandedOver(Departed(n, n.owner[d]), d)
      ensures n.taken[d] == ReplaysIn(n.hub.mailboxes[d].inbox) + Pending(n, d)
    {
      HandedOverAppend(Departed(p, user), Handovers(queue, c), d);
      HandoversHandAll(queue, c, d);
      if d == c {
        NothingHanded(Departed(p, user), c);
      } else {
        assert d in p.owner && d in p.taken && d in p.hub.mailboxes;
      }
    }
  }

  lemma ConnectKeepsHandovers(s: System, ttl: nat, user: User, c: Connection, now: nat)
    requires now >= s.clock && c !in s.owner && HandedHome(Swept(s, now))
    ensures HandedHome(Next(s, Connect(user, c, now), ttl))
  {
    hide Handovers, Messages, Swept, Surviving;
    SweptMeans(s, now);
    var p := Swept(s, now);
    var n := Next(s, Connect(user, c, now), ttl);
    NewHandover(Departed(p, user), Messages(QueueOf(p.hub, user)), c);
    forall u, i | 0 <= i < |Departed(n, u)| && Departed(n, u)[i].HandedTo?
      ensures Departed(n, u)[i].connection in n.owner && n.owner[Departed(n, u)[i].connection] == u
    {
      if u != user {
        assert Departed(n, u) == Departed(p, u);
      } else if i < |Departed(p, user)| {
        assert Departed(p, u)[i].HandedTo?;
      }
    }
  }

  lemma NoMessages()
    ensures Messages([]) == [] && ReplaysIn([]) == []
  {
  }

  lemma NewHandover(ds: seq<Departure>, ms: seq<Message>, c: Connection)
    ensures var all := ds + Handovers(ms, c);
            forall i :: 0 <= i < |all| ==> (i < |ds| && all[i] == ds[i]) || (i >= |ds| && all[i].HandedTo? && all[i].connection == c)
  {
  }

  lemma ReplayKeeps(s: System, ttl: nat, c: Connection)
    requires Inv(s, ttl)
    ensures Inv(Next(s, ReplayOne(c), ttl), ttl)
  {
    hide HandedOver, ReplaysIn, MessagesOf, Messages, SortedQueue, ReplaysOk, Conserved, HandedHome, Departed;
    if c in s.pending {
      var n := Next(s, ReplayOne(c), ttl);
      SameHistory(s, n);
      ReplayAdvances(s, ttl, c);
    }
  }

  /** History and queues that do not move keep their invariants. */
  lemma SameHistory(s: System, n: System)
    requires Conserved(s) && HandedHome(s)
    requires n.departed == s.departed && n.enqueued == s.enqueued && n.owner == s.owner && n.hub.queues == s.hub.queues
    ensures Conserved(n) && HandedHome(n)
  {
    hide MessagesOf, Messages;
    assert forall u :: Departed(n, u) == Departed(s, u);
    assert forall u :: QueueOf(n.hub, u) == QueueOf(s.hub, u);
    assert forall u :: Enqueued(n, u) == Enqueued(s, u);
  }

  lemma ReplayAdvances(s: System, ttl: nat, c: Connection)
    requires ReplaysOk(s) && ConnectionsOk(s) && c in s.pending
    ensures ReplaysOk(Next(s, ReplayOne(c), ttl))
  {
    hide HandedOver, ReplaysIn, Departed;
    var n := Next(s, ReplayOne(c), ttl);
    forall d | d in n.owner && d in n.taken && d in n.hub.mailboxes
      ensures n.taken[d] == HandedOver(Departed(n, n.owner[d]), d)
      ensures n.taken[d] == ReplaysIn(n.hub.mailboxes[d].inbox) + Pending(n, d)
    {
      SameDepartures(s, n, n.owner[d]);
      MessageMoves(s, ttl, c, d);
    }
  }

  lemma SameDepartures(s: System, n: System, u: User)
    requires n.departed == s.departed
    ensures Departed(n, u) == Departed(s, u)
  {
  }

  /** One replay moves the first pending message to the end of the inbox. */
  lemma MessageMoves(s: System, ttl: nat, c: Connection, d: Connection)
    requires c in s.pending && IsOpen(s.hub, c) && d in s.hub.mailboxes
    ensures var n := Next(s, ReplayOne(c), ttl);
            && d in n.hub.mailboxes
            && ReplaysIn(n.hub.mailboxes[d].inbox) + Pending(n, d) == ReplaysIn(s.hub.mailboxes[d].inbox) + Pending(s, d)
  {
    hide ReplaysIn;
    if s.pending[c] != [] {
      ReplayAppended(s.hub.mailboxes[c].inbox, s.pending[c][0]);
      assert s.pending[c] == [s.pending[c][0]] + s.pending[c][1..];
    }
  }

  lemma ReplayAppended(inbox: seq<Delivery>, m: Message)
    ensures ReplaysIn(inbox + [Replayed(m)]) == ReplaysIn(inbox) + [m]
    ensures ReplaysIn(inbox + [Live(m)]) == ReplaysIn(inbox)
  {
    assert (inbox + [Replayed(m)])[..|inbox|] == inbox;
    assert (inbox + [Live(m)])[..|inbox|] == inbox;
  }

  lemma DisconnectKeeps(s: System, ttl: nat, user: User, c: Connection, now: nat)
    requires Inv(s, ttl) && now >= s.clock
    ensures Inv(Next(s, Disconnect(user, c, now), ttl), ttl)
  {
    hide HandedOver, ReplaysIn, MessagesOf, Messages, Swept, Surviving, SortedQueue, Conserved, HandedHome;
    SweepKeeps(s, ttl, now);
    SweptMeans(s, now);
    var p := Swept(s, now);
    var n := Next(s, Disconnect(user, c, now), ttl);
    SameHistory(p, n);
    assert forall u :: Departed(n, u) == Departed(p, u);
  }

  lemma SendKeeps(s: System, ttl: nat, user: User, m: Message, now: nat)
    requires Inv(s, ttl) && now >= s.clock
    ensures Inv(Next(s, Send(user, m, now), ttl), ttl)
  {
    hide HandedOver, ReplaysIn, MessagesOf, Messages, Swept, Surviving, Conserved, ReplaysOk, HandedHome, QueuesOk;
    SweepKeeps(s, ttl, now);
    SweptMeans(s, now);
    SendKeepsQueues(s, ttl, user, m, now);
    SendConserves(s, ttl, user, m, now);
    SendKeepsReplays(s, ttl, user, m, now);
    var p := Swept(s, now);
    var n := Next(s, Send(user, m, now), ttl);
    HandedHomeKept(p, n);
  }

  lemma HandedHomeKept(s: System, n: System)
    requires HandedHome(s) && n.departed == s.departed && n.owner == s.owner
    ensures HandedHome(n)
  {
    assert forall u :: Departed(n, u) == Departed(s, u);
  }

  lemma SendKeepsQueues(s: System, ttl: nat, user: User, m: Message, now: nat)
    requires now >= s.clock && QueuesOk(Swept(s, now), ttl) && ConnectionsOk(Swept(s, now))
    ensures QueuesOk(Next(s, Send(user, m, now), ttl), ttl)
  {
    hide Swept, Surviving;
    SweptMeans(s, now);
  }

  lemma SendConserves(s: System, ttl: nat, user: User, m: Message, now: nat)
    requires now >= s.clock && Conserved(Swept(s, now))
    ensures Conserved(Next(s, Send(user, m, now), ttl))
  {
    hide MessagesOf, Messages, Swept, Surviving;
    SweptMeans(s, now);
    var p := Swept(s, now);
    var n := Next(s, Send(user, m, now), ttl);
    MessagesAppend(QueueOf(p.hub, user), [Queued(m, now + ttl)]);
    OneMessage(Queued(m, now + ttl));
    forall u
      ensures Enqueued(n, u) == MessagesOf(Departed(n, u)) + Messages(QueueOf(n.hub, u))
    {
      assert Enqueued(p, u) == MessagesOf(Departed(p, u)) + Messages(QueueOf(p.hub, u));
    }
  }

  lemma SendKeepsReplays(s: System, ttl: nat, user: User, m: Message, now: nat)
    requires now >= s.clock && ReplaysOk(Swept(s, now))
    ensures ReplaysOk(Next(s, Send(user, m, now), ttl))
  {
    hide HandedOver, ReplaysIn, Swept, Surviving;
    SweptMeans(s, now);
    var p := Swept(s, now);
    var n := Next(s, Send(user, m, now), ttl);
    forall c | c in n.owner && c in n.taken && c in n.hub.mailboxes
      ensures n.taken[c] == HandedOver(Departed(n, n.owner[c]), c)
      ensures n.taken[c] == ReplaysIn(n.hub.mailboxes[c].inbox) + Pending(n, c)
    {
      assert Departed(n, n.owner[c]) == Departed(p, p.owner[c]);
      ReplayAppended(p.hub.mailboxes[c].inbox, m);
    }
  }

  lemma OneMessage(q: Queued)
    ensures Messages([q]) == [q.message]
  {
    assert [q][..0] == [];
  }

  lemma HangupKeeps(s: System, ttl: nat, c: Connection)
    requires Inv(s, ttl)
    ensures Inv(Next(s, Hangup(c), ttl), ttl)
  {
    hide HandedOver, ReplaysIn, MessagesOf, Messages, SortedQueue, Conserved, HandedHome, Departed, ReplaysOk;
    var n := Next(s, Hangup(c), ttl);
    SameHistory(s, n);
    HangupKeepsReplays(s, ttl, c);
  }

  lemma HangupKeepsReplays(s: System, ttl: nat, c: Connection)
    requires ReplaysOk(s)
    ensures ReplaysOk(Next(s, Hangup(c), ttl))
  {
    hide HandedOver, ReplaysIn;
    var n := Next(s, Hangup(c), ttl);
    forall d | d in n.owner && d in n.taken && d in n.hub.mailboxes
      ensures n.taken[d] == HandedOver(Departed(n, n.owner[d]), d)
      ensures n.taken[d] == ReplaysIn(n.hub.mailboxes[d].inbox) + Pending(n, d)
    {
      assert Departed(n, n.owner[d]) == Departed(s, s.owner[d]);
    }
  }

  lemma {:induction false} RunInv(steps: seq<Step>, ttl: nat, n: nat)
    requires n <= |steps|
    ensures Inv(After(steps, ttl, n), ttl)
  {
    hide Inv, Next;
    if n == 0 {
      IdleInv(ttl);
    } else {
      RunInv(steps, ttl, n - 1);
      StepKeeps(After(steps, ttl, n - 1), ttl, steps[n - 1]);
    }
  }

  lemma IdleInv(ttl: nat)
    ensures Inv(IDLE, ttl)
  {
  }

  lemma StepKeeps(s: System, ttl: nat, e: Step)
    requires Inv(s, ttl)
    ensures Inv(Next(s, e, ttl), ttl)
  {
    hide Inv, Swept, Attached, Detached, Sent, Taken, Push;
    match e {
      case Connect(user, c, now) =>
        if now >= s.clock && c !in s.owner { ConnectKeeps(s, ttl, user, c, now); }
      case ReplayOne(c) => ReplayKeeps(s, ttl, c);
      case Hangup(c) => HangupKeeps(s, ttl, c);
      case Disconnect(user, c, now) =>
        if now >= s.clock { DisconnectKeeps(s, ttl, user, c, now); }
      case Send(user, m, now) =>
        if now >= s.clock { SendKeeps(s, ttl, user, m, now); }
      case Cleanup(now) =>
        if now >= s.clock { SweepKeeps(s, ttl, now); }
    }
  }

  // ------------------------------------------------------------ the guarantees

  /** A user with a queue has no registered connection, at every moment of every run. */
  lemma QueuedMeansAbsent(steps: seq<Step>, ttl: nat, n: nat, user: User)
    requires n <= |steps|
    ensures var hub := After(steps, ttl, n).hub;
            user in hub.queues ==> hub.queues[user] != [] && ConnectionsOf(hub, user) == {}
  {
    hide After, ConnectionsOk, Conserved, ReplaysOk, HandedHome;
    RunInv(steps, ttl, n);
  }

  /** Every message ever queued has left exactly once and in order, by expiry or to one connection, or is still queued. */
  lemma QueueConserved(steps: seq<Step>, ttl: nat, n: nat, user: User)
    requires n <= |steps|
    ensures var s := After(steps, ttl, n);
            Enqueued(s, user) == MessagesOf(Departed(s, user)) + Messages(QueueOf(s.hub, user))
  {
    hide After, ConnectionsOk, QueuesOk, ReplaysOk, HandedHome;
    RunInv(steps, ttl, n);
  }

  /** Once its replay is over, a connection has received what its user's queue handed to it, all of it and in queue order. */
  lemma ReplayInOrder(steps: seq<Step>, ttl: nat, n: nat, c: Connection)
    requires n <= |steps| && c in After(steps, ttl, n).owner
    ensures var s := After(steps, ttl, n);
            && c in s.hub.mailboxes
            && HandedOver(Departed(s, s.owner[c]), c) == ReplaysIn(s.hub.mailboxes[c].inbox) + Pending(s, c)
            && forall u :: u != s.owner[c] ==> HandedOver(Departed(s, u), c) == []
  {
    hide After, QueuesOk, Conserved, HandedOver, ReplaysIn, Departed;
    RunInv(steps, ttl, n);
    var s := After(steps, ttl, n);
    forall u | u != s.owner[c]
      ensures HandedOver(Departed(s, u), c) == []
    {
      NothingHanded(Departed(s, u), c);
    }
  }

  /** A message sent reaches every connection that still accepts, once each, or is queued, once; never both. */
  lemma SendReachesOrQueues(steps: seq<Step>, ttl: nat, n: nat, user: User, m: Message, now: nat)
    requires n <= |steps| && now >= After(steps, ttl, n).clock
    ensures var s := After(steps, ttl, n);
            var t := Next(s, Send(user, m, now), ttl);
            var reached := Reachable(s.hub, user);
            && t.hub.mailboxes.Keys == s.hub.mailboxes.Keys
            && (forall c :: c in s.hub.mailboxes ==>
                  t.hub.mailboxes[c].inbox == s.hub.mailboxes[c].inbox + (if c in reached then [Live(m)] else []))
            && ConnectionsOf(t.hub, user) == reached
            && (forall u :: u != user ==> ConnectionsOf(t.hub, u) == ConnectionsOf(s.hub, u))
            && QueueOf(t.hub, user) == if reached == {} then Unexpired(QueueOf(s.hub, user), now) + [Queued(m, now + ttl)] else []
  {
    hide After, Conserved, ReplaysOk, HandedHome, Unexpired, Surviving;
    RunInv(steps, ttl, n);
    var s := After(steps, ttl, n);
    SweptQueue(s, ttl, now, user);
    SweptMeans(s, now);
    SweepKeepsQueues(s, ttl, now);
  }

  // ------------------------------------------------------------ arrival order

  function AsReplays(ms: seq<Message>): seq<Delivery> {
    seq(|ms|, i requires 0 <= i < |ms| => Replayed(ms[i]))
  }

  /** What a connection has received, followed by what it is still to be replayed. */
  function Arrivals(s: System, c: Connection): seq<Delivery>
    requires c in s.hub.mailboxes
  {
    s.hub.mailboxes[c].inbox + AsReplays(Pending(s, c))
  }

  /** Older messages first: no replayed message comes after a live one. */
  predicate OldestFirst(ds: seq<Delivery>) {
    forall i, j :: 0 <= i < j < |ds| && ds[i].Live? ==> ds[j].Live?
  }

  /** The guard a sender could look at: this send reaches `c` while messages taken for `c` wait for their replay. */
  predicate Overtakes(s: System, e: Step, c: Connection) {
    e.Send? && e.now >= s.clock && c in Reachable(s.hub, e.user) && Pending(s, c) != []
  }

  lemma LiveLast(inbox: seq<Delivery>, m: Message, pending: seq<Message>)
    ensures OldestFirst(inbox + [Live(m)] + AsReplays(pending)) <==> OldestFirst(inbox + AsReplays(pending)) && pending == []
  {
    var all := inbox + [Live(m)] + AsReplays(pending);
    var before := inbox + AsReplays(pending);
    if pending == [] {
      assert all == inbox + [Live(m)] && before == inbox;
      assert forall i :: 0 <= i < |inbox| ==> all[i] == inbox[i];
    } else {
      assert all[|inbox|] == Live(m) && all[|inbox| + 1] == Replayed(pending[0]);
    }
  }

  lemma PendingMoves(inbox: seq<Delivery>, pending: seq<Message>)
    requires pending != []
    ensures inbox + [Replayed(pending[0])] + AsReplays(pending[1..]) == inbox + AsReplays(pending)
  {
  }

  /** One step keeps the order of arrivals unless it overtakes. */
  lemma ArrivalsStep(s: System, e: Step, ttl: nat, c: Connection)
    requires ConnectionsOk(s) && c in s.hub.mailboxes
    ensures var n := Next(s, e, ttl);
            c in n.hub.mailboxes && (OldestFirst(Arrivals(n, c)) <==> OldestFirst(Arrivals(s, c)) && !Overtakes(s, e, c))
  {
    hide OldestFirst, Swept, Unexpired, Surviving, Messages, Handovers;
    if e.ReplayOne? && e.connection == c && c in s.pending && s.pending[c] != [] {
      PendingMoves(s.hub.mailboxes[c].inbox, s.pending[c]);
    }
    if !e.ReplayOne? && !e.Hangup? {
      SweptMeans(s, e.now);
    }
    if e.Send? && e.now >= s.clock && c in Reachable(s.hub, e.user) {
      LiveLast(s.hub.mailboxes[c].inbox, e.message, Pending(s, c));
    }
  }

  /** A connection that just registered has received nothing yet. */
  lemma ArrivalsStart(s: System, e: Step, ttl: nat, c: Connection)
    requires ConnectionsOk(s) && c !in s.hub.mailboxes && c in Next(s, e, ttl).hub.mailboxes
    ensures OldestFirst(Arrivals(Next(s, e, ttl), c)) && !Overtakes(s, e, c)
  {
    hide Swept, Unexpired, Surviving, Messages, Handovers;
    if !e.ReplayOne? && !e.Hangup? {
      SweptMeans(s, e.now);
    }
  }

  /** A connection that is not registered yet has nothing pending. */
  lemma NotYetOvertaken(s: System, e: Step, c: Connection)
    requires ConnectionsOk(s) && c !in s.hub.mailboxes
    ensures !Overtakes(s, e, c)
  {
  }

  /** Mailboxes are never removed. */
  lemma MailboxesStay(s: System, e: Step, ttl: nat, c: Connection)
    requires c in s.hub.mailboxes
    ensures c in Next(s, e, ttl).hub.mailboxes
  {
    hide Swept, Unexpired, Surviving, Messages, Handovers;
    if !e.ReplayOne? && !e.Hangup? {
      SweptMeans(s, e.now);
    }
  }

  lemma {:induction false} AbsentBefore(steps: seq<Step>, ttl: nat, k: nat, n: nat, c: Connection)
    requires k <= n <= |steps| && c !in After(steps, ttl, n).hub.mailboxes
    ensures c !in After(steps, ttl, k).hub.mailboxes
    decreases n
  {
    hide Next;
    if k < n {
      AfterMeans(steps, ttl, n);
      if c in After(steps, ttl, n - 1).hub.mailboxes {
        MailboxesStay(After(steps, ttl, n - 1), steps[n - 1], ttl, c);
      }
      AbsentBefore(steps, ttl, k, n - 1, c);
    }
  }

  lemma RunConnections(steps: seq<Step>, ttl: nat, n: nat)
    requires n <= |steps|
    ensures ConnectionsOk(After(steps, ttl, n))
  {
    hide After, QueuesOk, Conserved, ReplaysOk, HandedHome;
    RunInv(steps, ttl, n);
  }

  /**
   Arrival order, exactly: in every run a connection receives older messages before newer ones, its
   pending replay included, if and only if no send has reached it while messages were pending for it.
   */
  lemma {:induction false} OrderKeptExactly(steps: seq<Step>, ttl: nat, n: nat, c: Connection)
    requires n <= |steps| && c in After(steps, ttl, n).hub.mailboxes
    ensures OldestFirst(Arrivals(After(steps, ttl, n), c))
            <==> forall k :: 0 <= k < n ==> !Overtakes(After(steps, ttl, k), steps[k], c)
  {
    hide Next, OldestFirst, Overtakes, Arrivals, ConnectionsOk;
    AfterMeans(steps, ttl, n);
    if n > 0 {
      var s := After(steps, ttl, n - 1);
      RunConnections(steps, ttl, n - 1);
      if c in s.hub.mailboxes {
        OrderKeptExactly(steps, ttl, n - 1, c);
        ArrivalsStep(s, steps[n - 1], ttl, c);
      } else {
        ArrivalsStart(s, steps[n - 1], ttl, c);
        forall k | 0 <= k < n
          ensures !Overtakes(After(steps, ttl, k), steps[k], c)
        {
          AbsentBefore(steps, ttl, k, n - 1, c);
          RunConnections(steps, ttl, k);
          NotYetOvertaken(After(steps, ttl, k), steps[k], c);
        }
      }
    }
  }

  /** A send between the locked step and the replay overtakes it: the older message arrives last. */
  lemma SendOvertakesReplay()
    ensures var steps := [Send(1, 10, 0), Connect(1, 7, 0), Send(1, 11, 0), ReplayOne(7)];
            var s := After(steps, 60, 4);
            Enqueued(s, 1) == [10] && 7 in s.hub.mailboxes && s.hub.mailboxes[7].inbox == [Live(11), Replayed(10)]
  {
    hide After, Next;
    var steps := [Send(1, 10, 0), Connect(1, 7, 0), Send(1, 11, 0), ReplayOne(7)];
    AfterMeans(steps, 60, 0);
    AfterMeans(steps, 60, 1);
    AfterMeans(steps, 60, 2);
    AfterMeans(steps, 60, 3);
    AfterMeans(steps, 60, 4);
    FirstQueued();
    var one := Next(IDLE, Send(1, 10, 0), 60);
    ThenTaken(one);
    var two := Next(one, Connect(1, 7, 0), 60);
    ThenSent(two);
    var three := Next(two, Send(1, 11, 0), 60);
    ThenReplayed(three);
  }

  lemma AfterMeans(steps: seq<Step>, ttl: nat, n: nat)
    requires n <= |steps|
    ensures After(steps, ttl, n) == if n == 0 then IDLE else Next(After(steps, ttl, n - 1), steps[n - 1], ttl)
  {
    hide Next;
  }

  /** One user has one message waiting, and no connection. */
  predicate Waiting(s: System) {
    s.clock == 0 && s.owner == map[] && s.pending == map[] && s.hub == State(map[], map[1 := [Queued(10, 60)]], map[]) && Enqueued(s, 1) == [10]
  }

  lemma FirstQueued()
    ensures Waiting(Next(IDLE, Send(1, 10, 0), 60))
  {
    assert Pruned(IDLE.hub, 0) == IDLE.hub;
    assert Reachable(Pruned(IDLE.hub, 0), 1) == {};
    assert Broadcast(map[], {}, Live(10)) == map[];
    assert QueueOf(IDLE.hub, 1) + [Queued(10, 60)] == [Queued(10, 60)];
    var n := Next(IDLE, Send(1, 10, 0), 60);
    assert n.hub.queues == map[1 := [Queued(10, 60)]];
  }

  /** The message has been taken for connection 7 and is not replayed yet. */
  predicate TakenNotReplayed(s: System, inbox: seq<Delivery>) {
    s.clock == 0 && s.pending == map[7 := [10]] && s.hub == State(map[1 := {7}], map[], map[7 := Mailbox(true, inbox)])
    && Enqueued(s, 1) == [10]
  }

  lemma OneUnexpired()
    ensures Unexpired([Queued(10, 60)], 0) == [Queued(10, 60)] && Lapsed([Queued(10, 60)], 0) == []
    ensures Messages([Queued(10, 60)]) == [10]
  {
    var q := [Queued(10, 60)];
    assert q[..0] == [];
  }

  lemma ThenTaken(s: System)
    requires Waiting(s)
    ensures TakenNotReplayed(Next(s, Connect(1, 7, 0), 60), [])
  {
    hide Unexpired, Messages, Lapsed, Expiries, Handovers, Departed;
    OneUnexpired();
    assert Pruned(s.hub, 0) == s.hub;
    var n := Next(s, Connect(1, 7, 0), 60);
    assert Taken(s.hub, 1, 0) == [10];
    assert ConnectionsOf(s.hub, 1) + {7} == {7};
    var h := Attached(s.hub, 1, 7, 0);
    assert n.hub == h;
    assert h.connections == map[1 := {7}];
    assert h.queues == map[];
    assert h.mailboxes == map[7 := Mailbox(true, [])];
  }

  lemma ThenSent(s: System)
    requires TakenNotReplayed(s, [])
    ensures TakenNotReplayed(Next(s, Send(1, 11, 0), 60), [Live(11)])
  {
    assert Pruned(s.hub, 0) == s.hub;
    assert Reachable(Pruned(s.hub, 0), 1) == {7};
    assert Without(s.hub.connections, 1, {7}) == map[1 := {7}];
    assert ConnectionsOf(s.hub, 1) == {7};
    var n := Next(s, Send(1, 11, 0), 60);
    assert n.hub.connections == map[1 := {7}];
    assert n.hub.mailboxes.Keys == {7};
    assert n.hub.mailboxes[7].inbox == [] + [Live(11)] == [Live(11)];
    assert n.hub.mailboxes == map[7 := Mailbox(true, [Live(11)])];
  }

  lemma ThenReplayed(s: System)
    requires TakenNotReplayed(s, [Live(11)])
    ensures var n := Next(s, ReplayOne(7), 60);
            Enqueued(n, 1) == [10] && 7 in n.hub.mailboxes && n.hub.mailboxes[7].inbox == [Live(11), Replayed(10)]
  {
  }
}
