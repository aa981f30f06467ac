/**
 The offline message hub: connections per user, a queue per absent user, and expiry. Everything the
 lock protects is one step; replaying a taken queue happens after the lock is released.
 */
module Hub {
  import opened Wrappers
  import opened Sorting

  type User = int
  type Connection = int
  type Message = int

  datatype Queued = Queued(message: Message, expires: nat)

  /** How a message reached a mailbox. */
  datatype Delivery = Live(message: Message) | Replayed(message: Message)

  /** One connection's channel; it stops accepting once its receiver is gone. */
  datatype Mailbox = Mailbox(open: bool, inbox: seq<Delivery>)

  datatype State = State(
    connections: map<User, set<Connection>>,
    queues: map<User, seq<Queued>>,
    mailboxes: map<Connection, Mailbox>)

  function QueueOf(s: State, user: User): seq<Queued> {
    if user in s.queues then s.queues[user] else []
  }

  function ConnectionsOf(s: State, user: User): set<Connection> {
    if user in s.connections then s.connections[user] else {}
  }

  // ------------------------------------------------------------ the steps under the lock

  function Unexpired(q: seq<Queued>, now: nat): seq<Queued> {
    if q == [] then []
    else Unexpired(q[..|q| - 1], now) + (if q[|q| - 1].expires > now then [q[|q| - 1]] else [])
  }

  /** The queues of `users` with expired messages removed; a queue that empties disappears. */
  function Surviving(queues: map<User, seq<Queued>>, users: set<User>, now: nat): map<User, seq<Queued>> {
    map u | u in queues && u in users && Unexpired(queues[u], now) != [] :: Unexpired(queues[u], now)
  }

  /** `prune_expired_messages`. */
  function Pruned(s: State, now: nat): State {
    s.(queues := Surviving(s.queues, s.queues.Keys, now))
  }

  function Messages(q: seq<Queued>): seq<Message> {
    if q == [] then [] else Messages(q[..|q| - 1]) + [q[|q| - 1].message]
  }

  /** The locked part of `connect`. */
  function Attached(s: State, user: User, connection: Connection, now: nat): State {
    var p := Pruned(s, now);
    State(p.connections[user := ConnectionsOf(p, user) + {connection}],
          p.queues - {user},
          p.mailboxes[connection := Mailbox(true, [])])
  }

  /** What the locked part of `connect` takes away to replay. */
  function Taken(s: State, user: User, now: nat): seq<Message> {
    Messages(QueueOf(Pruned(s, now), user))
  }

  function Without(connections: map<User, set<Connection>>, user: User, remaining: set<Connection>): map<User, set<Connection>> {
    if remaining == {} then connections - {user} else connections[user := remaining]
  }

  /** `disconnect`. */
  function Detached(s: State, user: User, connection: Connection, now: nat): State {
    var p := Pruned(s, now);
    if user in p.connections then p.(connections := Without(p.connections, user, p.connections[user] - {connection})) else p
  }

  function IsOpen(s: State, c: Connection): bool {
    c in s.mailboxes && s.mailboxes[c].open
  }

  /** The registered connections of a user that still accept. */
  function Reachable(s: State, user: User): set<Connection> {
    set c | c in ConnectionsOf(s, user) && IsOpen(s, c)
  }

  function Push(m: map<Connection, Mailbox>, c: Connection, d: Delivery): map<Connection, Mailbox> {
    if c in m && m[c].open then m[c := m[c].(inbox := m[c].inbox + [d])] else m
  }

  function Broadcast(m: map<Connection, Mailbox>, targets: set<Connection>, d: Delivery): map<Connection, Mailbox> {
    map c | c in m :: if c in targets && m[c].open then m[c].(inbox := m[c].inbox + [d]) else m[c]
  }

  /** `send`. */
  function Sent(s: State, user: User, message: Message, now: nat, ttl: nat): State {
    var p := Pruned(s, now);
    var reached := Reachable(p, user);
    State(if user in p.connections then Without(p.connections, user, reached) else p.connections,
          if reached == {} then p.queues[user := QueueOf(p, user) + [Queued(message, now + ttl)]] else p.queues,
          Broadcast(p.mailboxes, ConnectionsOf(p, user), Live(message)))
  }

  // ------------------------------------------------------------ the hub

  class InMemoryHub {
    const ttl: nat
    var connections: map<User, set<Connection>>
    var queues: map<User, seq<Queued>>
    var mailboxes: map<Connection, Mailbox>

    function Contents(): State
      reads this
    {
      State(connections, queues, mailboxes)
    }

    constructor (ttl: nat)
      ensures Contents() == State(map[], map[], map[]) && this.ttl == ttl
    {
      this.ttl := ttl;
      connections, queues, mailboxes := map[], map[], map[];
    }

    method PruneExpired(now: nat) returns (expired: nat)
      modifies this`queues
      ensures Contents() == Pruned(old(Contents()), now)
      ensures expired == QueuedCount(old(queues)) - QueuedCount(queues)
    {
      hide QueuedIn, Unexpired, Surviving;
      expired := 0;
      ghost var all := queues.Keys;
      var users := queues.Keys;
      var kept: map<User, seq<Queued>> := map[];
      NoneSurvive(queues, now);
      assert all - users == {};
      while users != {}
        invariant users <= all && queues == old(queues)
        invariant kept == Surviving(queues, all - users, now)
        invariant QueuedCount(kept) + expired + QueuedIn(queues, users) == QueuedCount(queues)
        decreases |users|
      {
        var user := Smallest(users);
        var retained := Retain(queues[user], now);
        CountAny(queues, users, user);
        SurvivingStep(queues, all - users, user, now);
        assert all - (users - {user}) == (all - users) + {user};
        if retained != [] {
          CountAdd(kept, user, retained);
          kept := kept[user := retained];
        }
        expired := expired + (|queues[user]| - |retained|);
        users := users - {user};
      }
      assert all - users == all;
      CountNone(queues);
      queues := kept;
    }

    /** The locked part of `connect`: register, then take the whole queue. */
    method Attach(user: User, connection: Connection, now: nat) returns (taken: seq<Message>)
      modifies this
      ensures Contents() == Attached(old(Contents()), user, connection, now)
      ensures taken == Taken(old(Contents()), user, now)
    {
      var expired := PruneExpired(now);
      var registered := if user in connections then connections[user] else {};
      connections := connections[user := registered + {connection}];
      mailboxes := mailboxes[connection := Mailbox(true, [])];
      taken := [];
      if user in queues {
        var queue := queues[user];
        queues := queues - {user};
        for i := 0 to |queue|
          invariant taken == Messages(queue[..i])
        {
          assert queue[..i + 1][..i] == queue[..i];
          taken := taken + [queue[i].message];
        }
        assert queue[..|queue|] == queue;
      }
      assert queues == Pruned(old(Contents()), now).queues - {user};
    }

    method Detach(user: User, connection: Connection, now: nat)
      modifies this
      ensures Contents() == Detached(old(Contents()), user, connection, now)
    {
      var expired := PruneExpired(now);
      if user in connections {
        connections := connections[user := connections[user] - {connection}];
        if connections[user] == {} {
          connections := connections - {user};
        }
      }
      assert connections == Detached(old(Contents()), user, connection, now).connections;
    }

    /** `deliver_to_active_connections`. */
    method Deliver(user: User, message: Message) returns (delivered: nat)
      modifies this`connections, this`mailboxes
      ensures delivered == |Reachable(old(Contents()), user)|
      ensures mailboxes == Broadcast(old(mailboxes), ConnectionsOf(old(Contents()), user), Live(message))
      ensures connections == if user in old(connections) then Without(old(connections), user, Reachable(old(Contents()), user))
                             else old(connections)
    {
      delivered := 0;
      if user !in connections {
        assert Broadcast(mailboxes, {}, Live(message)) == mailboxes;
        return;
      }
      ghost var s := Contents();
      var left := connections[user];
      var alive: set<Connection> := {};
      while left != {}
        invariant left <= s.connections[user] && connections == s.connections
        invariant alive == set c | c in s.connections[user] && c !in left && IsOpen(s, c)
        invariant delivered == |alive|
        invariant mailboxes == Broadcast(s.mailboxes, s.connections[user] - left, Live(message))
        decreases |left|
      {
        var c := Smallest(left);
        if c in mailboxes && mailboxes[c].open {
          mailboxes := mailboxes[c := mailboxes[c].(inbox := mailboxes[c].inbox + [Live(message)])];
          alive := alive + {c};
          delivered := delivered + 1;
        }
        left := left - {c};
      }
      assert s.connections[user] - left == s.connections[user];
      assert alive == Reachable(s, user);
      connections := if alive == {} then connections - {user} else connections[user := alive];
    }

    method Send(user: User, message: Message, now: nat) returns (delivered: nat, queued: nat)
      modifies this
      ensures Contents() == Sent(old(Contents()), user, message, now, ttl)
      ensures delivered == |Reachable(Pruned(old(Contents()), now), user)|
      ensures queued == if delivered == 0 then 1 else 0
    {
      var expired := PruneExpired(now);
      delivered := Deliver(user, message);
      queued := 0;
      if delivered == 0 {
        var queue := if user in queues then queues[user] else [];
        queues := queues[user := queue + [Queued(message, now + ttl)]];
        queued := 1;
      }
    }
  }

  // ------------------------------------------------------------ counting queues

  function QueuedIn(queues: map<User, seq<Queued>>, users: set<User>): nat
    requires users <= queues.Keys
    decreases |users|
  {
    if users == {} then 0 else var u := Smallest(users); |queues[u]| + QueuedIn(queues, users - {u})
  }

  function QueuedCount(queues: map<User, seq<Queued>>): nat {
    QueuedIn(queues, queues.Keys)
  }

  lemma {:induction false} CountAny(queues: map<User, seq<Queued>>, users: set<User>, user: User)
    requires users <= queues.Keys && user in users
    ensures QueuedIn(queues, users) == |queues[user]| + QueuedIn(queues, users - {user})
    decreases |users|
  {
    var u := Smallest(users);
    if u != user {
      CountAny(queues, users - {u}, user);
      assert users - {u} - {user} == users - {user} - {u};
      var rest := users - {user};
      assert Smallest(rest) == u;
    }
  }

  lemma {:induction false} CountSame(a: map<User, seq<Queued>>, b: map<User, seq<Queued>>, users: set<User>)
    requires users <= a.Keys && users <= b.Keys && forall u :: u in users ==> a[u] == b[u]
    ensures QueuedIn(a, users) == QueuedIn(b, users)
    decreases |users|
  {
    if users != {} {
      CountSame(a, b, users - {Smallest(users)});
    }
  }

  lemma CountAdd(kept: map<User, seq<Queued>>, user: User, queue: seq<Queued>)
    requires user !in kept
    ensures QueuedCount(kept[user := queue]) == QueuedCount(kept) + |queue|
  {
    var next := kept[user := queue];
    CountAny(next, next.Keys, user);
    assert next.Keys - {user} == kept.Keys;
    CountSame(next, kept, kept.Keys);
  }

  lemma CountNone(queues: map<User, seq<Queued>>)
    ensures QueuedIn(queues, {}) == 0
  {
  }

  lemma NoneSurvive(queues: map<User, seq<Queued>>, now: nat)
    ensures Surviving(queues, {}, now) == map[] && QueuedCount(map[]) == 0
  {
  }

  lemma SurvivingStep(queues: map<User, seq<Queued>>, done: set<User>, user: User, now: nat)
    requires user in queues && user !in done
    ensures user !in Surviving(queues, done, now)
    ensures var retained := Unexpired(queues[user], now);
            Surviving(queues, done + {user}, now)
            == if retained == [] then Surviving(queues, done, now) else Surviving(queues, done, now)[user := retained]
  {
    hide Unexpired;
    var retained := Unexpired(queues[user], now);
    var next := Surviving(queues, done + {user}, now);
    var grown := if retained == [] then Surviving(queues, done, now) else Surviving(queues, done, now)[user := retained];
    assert next.Keys == grown.Keys;
  }

  method Retain(queue: seq<Queued>, now: nat) returns (retained: seq<Queued>)
    ensures retained == Unexpired(queue, now) && |retained| <= |queue|
  {
    retained := [];
    for i := 0 to |queue|
      invariant retained == Unexpired(queue[..i], now) && |retained| <= i
    {
      assert queue[..i + 1][..i] == queue[..i];
      if queue[i].expires > now {
        retained := retained + [queue[i]];
      }
    }
    assert queue[..|queue|] == queue;
  }
}
