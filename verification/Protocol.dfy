/**
 The client, the host, the network between them and everyone else. The network loses, delays and
 aborts messages, and garbles answers, but never duplicates one; other parties use other request
 keys, which are drawn at random. Every interleaving of the events below is a run.
 */
module Protocol {
  import opened Wrappers
  import opened Sorting
  import opened AppSpec
  import opened Authority
  import opened Commands
  import opened Database
  import opened Journal
  import opened StoreRuns
  import opened HostApi
  import opened Client

  datatype Packet =
    | Post(call: Call, body: Body)
    | Get(call: Call, key: string)
    | Reply(outcome: Outcome)

  /** The composed state, with the history that the guarantees speak about: the keys this client issued, dropped and
      saw accepted, the keys of everyone else, and the journals behind the tables. */
  datatype System = System(
    client: ClientState,
    tasks: map<nat, Task>,
    net: map<nat, Packet>,
    next: nat,
    db: Db,
    books: Books,
    issued: map<string, Body>,
    dropped: set<string>,
    accepted: set<string>,
    foreign: set<string>)

  datatype Happening =
    | Edit
    | Connect
    | Refresh
    | PickTable
    | Issue(call: Call, command: int, record: int, key: string, inputs: Values)
    | Again(call: Call, recover: bool)
    | Serve(id: nat, circumstance: Circumstance)
    | Lose(id: nat)
    | Spoil(id: nat)
    | Arrive(id: nat)
    | GiveUp(id: nat)
    | FinishLoad(id: nat, view: View, denied: bool)
    | Foreign(action: Action)

  /** A fresh task, and the request it sends, if any. */
  function Spawn(s: System, t: Task, packet: Option<Packet>): System {
    s.(tasks := s.tasks[s.next := t],
       net := if packet.Some? then s.net[s.next := packet.value] else s.net,
       next := s.next + 1)
  }

  function OutcomeOf(r: Result<ReceiptDto, Code>): Outcome {
    match r
    case Ok(receipt) => Answered(receipt)
    case Err(code) => Refused(code)
  }

  /** The host takes one message off the network and answers it. */
  ghost function Served(host: Host, s: System, id: nat, c: Circumstance): System
    requires id in s.net
  {
    match s.net[id]
    case Post(call, body) =>
      var (next, r) := HostCommand(host, s.db, call, body, c);
      s.(db := next,
         books := if next == s.db then s.books else Record(host.cfg, s.db, s.books, Submission(call, body, c)),
         net := s.net[id := Reply(OutcomeOf(r))])
    case Get(call, key) => s.(net := s.net[id := Reply(OutcomeOf(HostReceipt(host, s.db, call, key, c)))])
    case Reply(_) => s
  }

  /** A suspended task resumes with `out`; what becomes of its attempt is recorded. */
  function Settled(host: Host, s: System, id: nat, out: Outcome): System
    requires id in s.tasks && s.tasks[id].Dispatching?
  {
    var t := s.tasks[id];
    var (client, follow) := Resolved(host.scope.app, s.client, t, out);
    var current := s.client.generation == t.generation;
    s.(client := client,
       tasks := if follow == ThenLoad then s.tasks[id := Loading(t.generation)] else s.tasks - {id},
       accepted := if current && follow == ThenLoad then s.accepted + {t.attempt.body.key} else s.accepted,
       dropped := if current && follow == Done && client.attempt.None? then s.dropped + {t.attempt.body.key} else s.dropped)
  }

  /** One event, when it is enabled. */
  ghost function Step(host: Host, s: System, e: Happening): System {
    match e
    case Edit => s.(client := Invalidated(s.client))
    case Connect =>
      if s.client.busy then s
      else
        var c := Connected(s.client);
        Spawn(s.(client := c), Loading(c.generation), None)
    case Refresh =>
      if !Idle(s.client) then s else Spawn(s.(client := Refreshed(s.client)), Loading(s.client.generation), None)
    case PickTable =>
      if !Idle(s.client) then s else Spawn(s.(client := TablePicked(s.client)), Loading(s.client.generation), None)
    case Issue(call, command, record, key, inputs) =>
      if !CanSubmit(s.client, command, record) || key in s.issued || key in s.foreign || call.scope != host.scope then s
      else
        var b := BodyOf(s.client, command, record, key, inputs);
        Spawn(s.(client := Submitted(s.client, b), issued := s.issued[key := b]),
              Dispatching(Attempt(b, false), false, s.client.generation), Some(Post(call, b)))
    case Again(call, recover) =>
      if s.client.busy || s.client.attempt.None? || call.scope != host.scope then s
      else
        var a := s.client.attempt.value;
        Spawn(s.(client := Resent(s.client)), Dispatching(a, recover, s.client.generation),
              Some(if recover then Get(call, a.body.key) else Post(call, a.body)))
    case Serve(id, c) => if id in s.net then Served(host, s, id, c) else s
    case Lose(id) => s.(net := s.net - {id})
    case Spoil(id) => if id in s.net && s.net[id].Reply? then s.(net := s.net[id := Reply(Garbled)]) else s
    case Arrive(id) =>
      if id in s.tasks && s.tasks[id].Dispatching? && id in s.net && s.net[id].Reply?
      then Settled(host, s.(net := s.net - {id}), id, s.net[id].outcome)
      else s
    case GiveUp(id) => if id in s.tasks && s.tasks[id].Dispatching? then Settled(host, s, id, Unreached) else s
    case FinishLoad(id, view, denied) =>
      if id in s.tasks && s.tasks[id].Loading?
      then s.(client := Loaded(s.client, s.tasks[id], view, denied), tasks := s.tasks - {id})
      else s
    case Foreign(action) =>
      if !Admissible(action) || (action.Submit? && action.request.key in s.issued) then s
      else
        s.(db := Act(host.cfg, s.db, action),
           books := Record(host.cfg, s.db, s.books, action),
           foreign := if action.Submit? then s.foreign + {action.request.key} else s.foreign)
  }

  function LogOf(host: Host, s: System): seq<Entry> {
    if host.scope.app in s.books then s.books[host.scope.app].log else []
  }

  /** A client that just opened its window, in front of a host that serves a released application. */
  ghost predicate Initial(host: Host, s: System) {
    && s.client == ClientState(None, false, 0, None, NOTHING_SHOWN)
    && s.tasks == map[] && s.net == map[] && s.issued == map[] && s.dropped == {} && s.accepted == {}
    && Serving(host, s.db, s.books)
    && forall i :: 0 <= i < |LogOf(host, s)| ==> LogOf(host, s)[i].request.key in s.foreign
  }

  ghost function StateAt(host: Host, s: System, events: seq<Happening>, n: nat): System
    requires n <= |events|
  {
    if n == 0 then s else Step(host, StateAt(host, s, events, n - 1), events[n - 1])
  }
}
