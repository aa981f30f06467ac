/**
 The steps of the hub in plain terms: who is registered, which mailbox received what, and which part
 of a queue is left, each said entry by entry of the state before and after.
 */
module PlainHub {
  import opened Wrappers
  import opened Sorting
  import opened Hub
  import opened HubRuns

  predicate Registered(s: State, user: User, c: Connection) {
    user in s.connections && c in s.connections[user]
  }

  /** The connection is registered for the user and its receiver is still there. */
  predicate Reaches(s: State, user: User, c: Connection) {
    Registered(s, user, c) && c in s.mailboxes && s.mailboxes[c].open
  }

  /** `left` is what is not expired of `queue`: everything from some place on. */
  ghost predicate DropsExpired(queue: seq<Queued>, left: seq<Queued>, now: nat) {
    exists k :: 0 <= k <= |queue| && left == queue[k..]
                && (forall i :: 0 <= i < k ==> queue[i].expires <= now)
                && (forall i :: k <= i < |queue| ==> queue[i].expires > now)
  }

  predicate SameMessages(queue: seq<Queued>, messages: seq<Message>) {
    |messages| == |queue| && forall i :: 0 <= i < |queue| ==> messages[i] == queue[i].message
  }

  lemma DropsMeans(queue: seq<Queued>, now: nat)
    requires SortedQueue(queue)
    ensures DropsExpired(queue, Unexpired(queue, now), now)
  {
    hide SortedQueue, Unexpired, Lapsed;
    ExpiryIsPrefix(queue, now);
    var k := |Lapsed(queue, now)|;
    assert queue[k..] == Unexpired(queue, now);
    forall i | 0 <= i < k
      ensures queue[i].expires <= now
    {
      assert queue[i] == Lapsed(queue, now)[i];
    }
    forall i | k <= i < |queue|
      ensures queue[i].expires > now
    {
      assert queue[i] == Unexpired(queue, now)[i - k];
    }
  }

  lemma {:induction false} MessagesMean(queue: seq<Queued>)
    ensures SameMessages(queue, Messages(queue))
  {
    if queue != [] {
      MessagesMean(queue[..|queue| - 1]);
    }
  }

  lemma QueueSwept(s: System, ttl: nat, now: nat, user: User)
    requires QueuesOk(s, ttl)
    ensures DropsExpired(QueueOf(s.hub, user), QueueOf(Pruned(s.hub, now), user), now)
  {
    hide Unexpired, SortedQueue, Surviving;
    EmptyQueueSorted();
    DropsMeans(QueueOf(s.hub, user), now);
    PrunedQueue(s.hub, now, user);
  }

  lemma RunQueues(steps: seq<Step>, ttl: nat, n: nat)
    requires n <= |steps|
    ensures QueuesOk(After(steps, ttl, n), ttl) && ConnectionsOk(After(steps, ttl, n))
  {
    hide After, QueuesOk, ConnectionsOk, Conserved, ReplaysOk, HandedHome;
    RunInv(steps, ttl, n);
  }

  /** A send delivers once to every open connection of the user and drops the closed ones; only if none is open it queues, behind what has not expired. */
  lemma SendExactly(steps: seq<Step>, ttl: nat, n: nat, user: User, m: Message, now: nat)
    requires n <= |steps| && now >= After(steps, ttl, n).clock
    ensures var s, t := After(steps, ttl, n).hub, Next(After(steps, ttl, n), Send(user, m, now), ttl).hub;
            && (forall u, c :: Registered(t, u, c) <==> Registered(s, u, c) && (u == user ==> Reaches(s, u, c)))
            && (forall c :: c in t.mailboxes <==> c in s.mailboxes)
            && (forall c :: c in s.mailboxes && c in t.mailboxes ==>
                  && t.mailboxes[c].open == s.mailboxes[c].open
                  && t.mailboxes[c].inbox == s.mailboxes[c].inbox + if Reaches(s, user, c) then [Live(m)] else [])
            && (forall u :: u != user ==> DropsExpired(QueueOf(s, u), QueueOf(t, u), now))
            && ((exists c :: Reaches(s, user, c)) ==> DropsExpired(QueueOf(s, user), QueueOf(t, user), now))
            && ((forall c :: !Reaches(s, user, c)) ==>
                  exists left :: DropsExpired(QueueOf(s, user), left, now) && QueueOf(t, user) == left + [Queued(m, now + ttl)])
  {
    hide After, Surviving, DropsExpired, QueuesOk, Swept;
    RunQueues(steps, ttl, n);
    var a := After(steps, ttl, n);
    var s, t := a.hub, Next(a, Send(user, m, now), ttl).hub;
    SweptMeans(a, now);
    forall u
      ensures DropsExpired(QueueOf(s, u), QueueOf(Pruned(s, now), u), now)
    {
      QueueSwept(a, ttl, now, u);
    }
    ReachedMeans(s, user);
    assert Reachable(Pruned(s, now), user) == Reachable(s, user);
    SentMeans(s, user, m, now, ttl);
  }

  lemma ReachedMeans(s: State, user: User)
    ensures forall c :: c in Reachable(s, user) <==> Reaches(s, user, c)
  {
  }

  lemma SentMeans(s: State, user: User, m: Message, now: nat, ttl: nat)
    ensures var p, t := Pruned(s, now), Sent(s, user, m, now, ttl);
            && (forall u, c :: Registered(t, u, c) <==> Registered(s, u, c) && (u == user ==> c in Reachable(s, u)))
            && (forall u :: QueueOf(t, u) == QueueOf(p, u) + if u == user && Reachable(s, user) == {} then [Queued(m, now + ttl)] else [])
  {
    hide Surviving;
    assert Reachable(Pruned(s, now), user) == Reachable(s, user);
  }

  /** Connecting registers one connection with an empty open mailbox, and takes the user's whole unexpired queue for its replay. */
  lemma ConnectExactly(steps: seq<Step>, ttl: nat, n: nat, user: User, c: Connection, now: nat)
    requires n <= |steps| && now >= After(steps, ttl, n).clock && c !in After(steps, ttl, n).owner
    ensures var a, b := After(steps, ttl, n), Next(After(steps, ttl, n), Connect(user, c, now), ttl);
            && (forall u, d :: Registered(b.hub, u, d) <==> Registered(a.hub, u, d) || (u == user && d == c))
            && b.hub.mailboxes == a.hub.mailboxes[c := Mailbox(true, [])]
            && (forall u :: u != user ==> DropsExpired(QueueOf(a.hub, u), QueueOf(b.hub, u), now))
            && QueueOf(b.hub, user) == []
            && (exists left :: DropsExpired(QueueOf(a.hub, user), left, now) && SameMessages(left, Pending(b, c)))
            && (forall d :: d != c ==> Pending(b, d) == Pending(a, d))
  {
    hide After, Surviving, DropsExpired, QueuesOk, Swept, Messages, Handovers, ConnectionsOk;
    RunQueues(steps, ttl, n);
    var a := After(steps, ttl, n);
    SweptMeans(a, now);
    forall u
      ensures DropsExpired(QueueOf(a.hub, u), QueueOf(Pruned(a.hub, now), u), now)
    {
      QueueSwept(a, ttl, now, u);
    }
    MessagesMean(QueueOf(Pruned(a.hub, now), user));
  }

  lemma DetachedMeans(s: State, user: User, c: Connection, now: nat)
    ensures forall u, d :: Registered(Detached(s, user, c, now), u, d) <==> Registered(s, u, d) && !(u == user && d == c)
  {
    hide Surviving;
    var t := Detached(s, user, c, now);
    forall u, d
      ensures Registered(t, u, d) <==> Registered(s, u, d) && !(u == user && d == c)
    {
      if u == user && user in s.connections {
        assert d in s.connections[user] - {c} <==> d in s.connections[user] && d != c;
      }
    }
  }

  /** Disconnecting takes one connection off the register, and nothing else but expired messages. */
  lemma DisconnectExactly(steps: seq<Step>, ttl: nat, n: nat, user: User, c: Connection, now: nat)
    requires n <= |steps| && now >= After(steps, ttl, n).clock
    ensures var a, b := After(steps, ttl, n), Next(After(steps, ttl, n), Disconnect(user, c, now), ttl);
            && (forall u, d :: Registered(b.hub, u, d) <==> Registered(a.hub, u, d) && !(u == user && d == c))
            && b.hub.mailboxes == a.hub.mailboxes && b.pending == a.pending
            && (forall u :: DropsExpired(QueueOf(a.hub, u), QueueOf(b.hub, u), now))
  {
    hide After, Surviving, DropsExpired, QueuesOk, Swept, Registered;
    RunQueues(steps, ttl, n);
    var a := After(steps, ttl, n);
    SweptMeans(a, now);
    DetachedMeans(a.hub, user, c, now);
    forall u
      ensures DropsExpired(QueueOf(a.hub, u), QueueOf(Pruned(a.hub, now), u), now)
    {
      QueueSwept(a, ttl, now, u);
    }
  }
}
