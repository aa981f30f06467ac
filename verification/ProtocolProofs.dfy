/**
 What the recovery protocol guarantees over every run: at most one commit for each issued body, no
 certain attempt left at rest, no accepted receipt without its commit, no dropped attempt with one.
 */
module ProtocolProofs {
  import opened Wrappers
  import opened Sorting
  import opened AppSpec
  import opened Authority
  import opened Commands
  import opened Database
  import opened Journal
  import opened JournalRuns
  import opened StoreRuns
  import opened HostApi
  import opened Client
  import opened Protocol

  predicate KeyInLog(log: seq<Entry>, key: string) {
    exists i :: 0 <= i < |log| && log[i].request.key == key
  }

  // ------------------------------------------------------------ the invariant

  /** Every commit belongs to somebody else, or to the one body that this client issued under its key, for the host's release. */
  predicate Owned(log: seq<Entry>, issued: map<string, Body>, foreign: set<string>, release: Identity) {
    && issued.Keys !! foreign
    && (forall k :: k in issued ==> issued[k].key == k)
    && (forall i :: 0 <= i < |log| ==>
          || log[i].request.key in foreign
          || (&& log[i].request.key in issued
              && log[i].request == RequestOf(issued[log[i].request.key])
              && log[i].expected == issued[log[i].request.key].expected
              && issued[log[i].request.key].release == release))
  }

  predicate IsIssued(issued: map<string, Body>, b: Body) {
    b.key in issued && issued[b.key] == b
  }

  /** Messages under way carry issued bodies unchanged, and answered receipts are backed by the log. */
  predicate PacketOk(host: Host, issued: map<string, Body>, log: seq<Entry>, p: Packet) {
    match p
    case Post(call, b) => call.scope == host.scope && IsIssued(issued, b)
    case Get(call, key) => call.scope == host.scope && key in issued
    case Reply(Answered(r)) => KeyInLog(log, r.key)
    case Reply(_) => true
  }

  predicate NetOk(host: Host, s: System) {
    forall id :: id in s.net ==> id < s.next && PacketOk(host, s.issued, LogOf(host, s), s.net[id])
  }

  predicate TasksOk(s: System) {
    forall id :: id in s.tasks ==>
      id < s.next && s.tasks[id].generation <= s.client.generation
      && (s.tasks[id].Dispatching? ==> IsIssued(s.issued, s.tasks[id].attempt.body))
  }

  predicate ClientOk(s: System) {
    s.client.attempt.Some? ==>
      var a := s.client.attempt.value;
      && IsIssued(s.issued, a.body) && a.body.key !in s.dropped && a.body.key !in s.accepted
      && (!s.client.busy ==> a.uncertain)
  }

  predicate Current(s: System, id: nat) {
    id in s.tasks && s.tasks[id].generation == s.client.generation
  }

  /** At most one task is current, it keeps the client busy, and it works on the retained attempt. */
  ghost predicate CurrentOk(s: System) {
    && (forall i, j :: Current(s, i) && Current(s, j) ==> i == j)
    && (forall id :: Current(s, id) ==> s.client.busy)
    && (forall id :: Current(s, id) && s.tasks[id].Dispatching? ==>
          s.client.attempt == Some(s.tasks[id].attempt) && (s.tasks[id].recover ==> s.tasks[id].attempt.uncertain))
    && (forall id :: Current(s, id) && s.tasks[id].Loading? && s.client.attempt.Some? ==> s.client.attempt.value.uncertain)
  }

  predicate NoOtherPost(s: System, key: string, id: nat) {
    forall j :: j in s.net && s.net[j].Post? && s.net[j].body.key == key ==> j == id
  }

  predicate Final(p: Packet) {
    p.Reply? && p.outcome.Refused? && p.outcome.code != ApiInternal
  }

  /** While an attempt is certain its only message is that of the current task, and is unserved or refused only without a commit. */
  predicate CertainBy(host: Host, s: System, id: nat) {
    s.client.attempt.Some? &&
    var a := s.client.attempt.value;
    && Current(s, id) && s.tasks[id] == Dispatching(a, false, s.client.generation)
    && NoOtherPost(s, a.body.key, id)
    && (id in s.net ==> !s.net[id].Get?)
    && (id in s.net && (s.net[id].Post? || Final(s.net[id])) ==> !KeyInLog(LogOf(host, s), a.body.key))
  }

  ghost predicate CertainOk(host: Host, s: System) {
    s.client.attempt.Some? && !s.client.attempt.value.uncertain ==> exists id :: CertainBy(host, s, id)
  }

  predicate DroppedOk(host: Host, s: System) {
    forall k :: k in s.dropped ==>
      && k in s.issued && !KeyInLog(LogOf(host, s), k)
      && (forall j :: j in s.net && s.net[j].Post? ==> s.net[j].body.key != k)
  }

  predicate AcceptedOk(host: Host, s: System) {
    forall k :: k in s.accepted ==> k in s.issued && KeyInLog(LogOf(host, s), k)
  }

  /** No issued attempt is ever lost track of. */
  predicate LedgerOk(s: System) {
    forall k :: k in s.issued ==>
      k in s.dropped || k in s.accepted || (s.client.attempt.Some? && s.client.attempt.value.body.key == k)
  }

  ghost predicate Inv(host: Host, s: System) {
    && Serving(host, s.db, s.books)
    && Owned(LogOf(host, s), s.issued, s.foreign, host.release)
    && NetOk(host, s)
    && TasksOk(s)
    && ClientOk(s)
    && CurrentOk(s)
    && CertainOk(host, s)
    && DroppedOk(host, s)
    && AcceptedOk(host, s)
    && LedgerOk(s)
  }

  lemma InitialInv(host: Host, s: System)
    requires Initial(host, s)
    ensures Inv(host, s)
  {
    hide Serving;
  }

  // ------------------------------------------------------------ what stays put keeps its invariant

  lemma InvFrom(host: Host, s: System)
    requires Serving(host, s.db, s.books) && Owned(LogOf(host, s), s.issued, s.foreign, host.release) && NetOk(host, s) && TasksOk(s)
    requires ClientOk(s) && CurrentOk(s) && CertainOk(host, s) && DroppedOk(host, s) && AcceptedOk(host, s) && LedgerOk(s)
    ensures Inv(host, s)
  {
  }

  lemma InvParts(host: Host, s: System)
    requires Inv(host, s)
    ensures Serving(host, s.db, s.books) && Owned(LogOf(host, s), s.issued, s.foreign, host.release) && NetOk(host, s) && TasksOk(s)
    ensures ClientOk(s) && CurrentOk(s) && CertainOk(host, s) && DroppedOk(host, s) && AcceptedOk(host, s) && LedgerOk(s)
  {
  }

  /** Events that leave the network, the tables and the history alone. */
  lemma SameNetwork(host: Host, s: System, n: System)
    requires Inv(host, s)
    requires n.net == s.net && n.next >= s.next && n.db == s.db && n.books == s.books && n.issued == s.issued
    requires n.dropped == s.dropped && n.accepted == s.accepted && n.foreign == s.foreign
    ensures LogOf(host, n) == LogOf(host, s)
    ensures Serving(host, n.db, n.books) && Owned(LogOf(host, n), n.issued, n.foreign, host.release) && NetOk(host, n)
    ensures DroppedOk(host, n) && AcceptedOk(host, n)
  {
    hide Serving, Owned, KeyInLog, TasksOk, ClientOk, CurrentOk, CertainOk, LedgerOk;
    assert LogOf(host, n) == LogOf(host, s);
  }

  /** Events that leave the client, its tasks and its history alone. */
  lemma SameTasks(host: Host, s: System, n: System)
    requires Inv(host, s)
    requires n.client == s.client && n.tasks == s.tasks && n.next == s.next && n.issued == s.issued
    requires n.dropped == s.dropped && n.accepted == s.accepted
    ensures TasksOk(n) && ClientOk(n) && CurrentOk(n) && LedgerOk(n)
    ensures forall id :: Current(n, id) <==> Current(s, id)
  {
    hide Serving, Owned, NetOk, CertainOk, DroppedOk, AcceptedOk;
    assert forall id :: Current(n, id) <==> Current(s, id);
  }

  /** A certain attempt stays certain when its own message is unserved or finally refused only as before. */
  lemma StillCertain(host: Host, s: System, n: System)
    requires CertainOk(host, s) && n.client == s.client && n.tasks == s.tasks
    requires forall id :: id in n.net && n.net[id].Post? ==> id in s.net && s.net[id] == n.net[id]
    requires forall id :: id in n.net && n.net[id].Get? ==> id in s.net && s.net[id].Get?
    requires forall id, k :: (id in n.net && (n.net[id].Post? || Final(n.net[id])) && KeyInLog(LogOf(host, n), k)
                              && CertainBy(host, s, id) && s.client.attempt.value.body.key == k)
                             ==> id in s.net && (s.net[id].Post? || Final(s.net[id])) && KeyInLog(LogOf(host, s), k)
    ensures CertainOk(host, n)
  {
    hide KeyInLog, LogOf;
    if s.client.attempt.Some? && !s.client.attempt.value.uncertain {
      var j :| CertainBy(host, s, j);
      assert Current(n, j) <==> Current(s, j);
      assert CertainBy(host, n, j);
    }
  }

  // ------------------------------------------------------------ the client's own events

  /** Starting a task that sends nothing keeps the invariant. */
  lemma SpawnLoad(host: Host, s: System, c: ClientState)
    requires Inv(host, s) && !s.client.busy
    requires c.attempt == s.client.attempt && c.busy && c.generation == s.client.generation
    ensures Inv(host, Spawn(s.(client := c), Loading(c.generation), None))
  {
    hide Serving, Owned, KeyInLog, NetOk, DroppedOk, AcceptedOk, Inv;
    var n := Spawn(s.(client := c), Loading(c.generation), None);
    SameNetwork(host, s, n);
    InvParts(host, s);
    assert forall id :: Current(n, id) ==> id == s.next || Current(s, id);
    InvFrom(host, n);
  }

  lemma EditKeeps(host: Host, s: System)
    requires Inv(host, s)
    ensures Inv(host, s.(client := Invalidated(s.client)))
  {
    hide Serving, Owned, KeyInLog, NetOk, DroppedOk, AcceptedOk, Inv;
    var n := s.(client := Invalidated(s.client));
    SameNetwork(host, s, n);
    InvParts(host, s);
    assert forall id :: !Current(n, id);
    InvFrom(host, n);
  }

  lemma IssueKeeps(host: Host, s: System, call: Call, command: int, record: int, key: string, inputs: Values)
    requires Inv(host, s)
    ensures Inv(host, Step(host, s, Issue(call, command, record, key, inputs)))
  {
    hide Inv, CanSubmit;
    if CanSubmit(s.client, command, record) && key !in s.issued && key !in s.foreign && call.scope == host.scope {
      IssueKeepsNetwork(host, s, call, command, record, key, inputs);
      IssueKeepsClient(host, s, call, command, record, key, inputs);
      IssueCertain(host, s, call, command, record, key, inputs);
      var n := Step(host, s, Issue(call, command, record, key, inputs));
      InvFrom(host, n);
    }
  }

  lemma IssueKeepsNetwork(host: Host, s: System, call: Call, command: int, record: int, key: string, inputs: Values)
    requires Inv(host, s) && CanSubmit(s.client, command, record) && key !in s.issued && key !in s.foreign && call.scope == host.scope
    ensures var n := Step(host, s, Issue(call, command, record, key, inputs));
            Serving(host, n.db, n.books) && Owned(LogOf(host, n), n.issued, n.foreign, host.release) && NetOk(host, n) && TasksOk(n)
  {
    hide Serving, Owned, KeyInLog, CurrentOk, CertainOk, DroppedOk, AcceptedOk, LedgerOk;
    var n := Step(host, s, Issue(call, command, record, key, inputs));
    assert LogOf(host, n) == LogOf(host, s);
    FreshKey(LogOf(host, s), s.issued, s.foreign, host.release, BodyOf(s.client, command, record, key, inputs));
  }

  lemma IssueKeepsClient(host: Host, s: System, call: Call, command: int, record: int, key: string, inputs: Values)
    requires Inv(host, s) && CanSubmit(s.client, command, record) && key !in s.issued && key !in s.foreign && call.scope == host.scope
    ensures var n := Step(host, s, Issue(call, command, record, key, inputs));
            ClientOk(n) && CurrentOk(n) && DroppedOk(host, n) && AcceptedOk(host, n) && LedgerOk(n)
  {
    hide Serving, Owned, KeyInLog, TasksOk, NetOk, CertainOk;
    var n := Step(host, s, Issue(call, command, record, key, inputs));
    assert LogOf(host, n) == LogOf(host, s);
    assert forall id :: Current(n, id) ==> id == s.next || Current(s, id);
  }

  /** The attempt just issued is certain by its own task and message. */
  lemma IssueCertain(host: Host, s: System, call: Call, command: int, record: int, key: string, inputs: Values)
    requires Inv(host, s) && CanSubmit(s.client, command, record) && key !in s.issued && key !in s.foreign && call.scope == host.scope
    ensures CertainOk(host, Step(host, s, Issue(call, command, record, key, inputs)))
  {
    hide Serving, Owned, KeyInLog, TasksOk, ClientOk, CurrentOk, DroppedOk, AcceptedOk, LedgerOk, CertainOk;
    var n := Step(host, s, Issue(call, command, record, key, inputs));
    assert LogOf(host, n) == LogOf(host, s);
    FreshKey(LogOf(host, s), s.issued, s.foreign, host.release, BodyOf(s.client, command, record, key, inputs));
    assert forall id :: id in s.net ==> PacketOk(host, s.issued, LogOf(host, s), s.net[id]);
    assert CertainBy(host, n, s.next);
    CertainFrom(host, n, s.next);
  }

  lemma CertainFrom(host: Host, s: System, id: nat)
    requires CertainBy(host, s, id)
    ensures CertainOk(host, s)
  {
    hide CertainBy;
  }

  /** A fresh key is in nobody's log, and claiming it disturbs no other claim. */
  lemma FreshKey(log: seq<Entry>, issued: map<string, Body>, foreign: set<string>, release: Identity, b: Body)
    requires Owned(log, issued, foreign, release) && b.key !in issued && b.key !in foreign
    ensures !KeyInLog(log, b.key) && Owned(log, issued[b.key := b], foreign, release)
  {
  }

  lemma AgainKeeps(host: Host, s: System, call: Call, recover: bool)
    requires Inv(host, s)
    ensures Inv(host, Step(host, s, Again(call, recover)))
  {
    hide Inv;
    if !s.client.busy && s.client.attempt.Some? && call.scope == host.scope {
      var n := Step(host, s, Again(call, recover));
      AgainKeepsNetwork(host, s, call, recover);
      AgainKeepsClient(host, s, call, recover);
      InvFrom(host, n);
    }
  }

  lemma AgainKeepsNetwork(host: Host, s: System, call: Call, recover: bool)
    requires Inv(host, s) && !s.client.busy && s.client.attempt.Some? && call.scope == host.scope
    ensures var n := Step(host, s, Again(call, recover));
            && Serving(host, n.db, n.books) && Owned(LogOf(host, n), n.issued, n.foreign, host.release) && NetOk(host, n)
            && DroppedOk(host, n) && AcceptedOk(host, n)
  {
    hide Serving, Owned, KeyInLog, TasksOk, CurrentOk, CertainOk, LedgerOk;
    var n := Step(host, s, Again(call, recover));
    assert LogOf(host, n) == LogOf(host, s);
  }

  lemma AgainKeepsClient(host: Host, s: System, call: Call, recover: bool)
    requires Inv(host, s) && !s.client.busy && s.client.attempt.Some? && call.scope == host.scope
    ensures var n := Step(host, s, Again(call, recover));
            TasksOk(n) && ClientOk(n) && CurrentOk(n) && CertainOk(host, n) && LedgerOk(n)
  {
    hide Serving, Owned, KeyInLog, NetOk, DroppedOk, AcceptedOk;
    var n := Step(host, s, Again(call, recover));
    assert forall id :: Current(n, id) ==> id == s.next || Current(s, id);
  }

  lemma FinishLoadKeeps(host: Host, s: System, id: nat, view: View, denied: bool)
    requires Inv(host, s)
    ensures Inv(host, Step(host, s, FinishLoad(id, view, denied)))
  {
    hide Serving, Owned, KeyInLog, NetOk, DroppedOk, AcceptedOk, Inv, CertainOk, LogOf;
    if id in s.tasks && s.tasks[id].Loading? {
      var n := Step(host, s, FinishLoad(id, view, denied));
      SameNetwork(host, s, n);
      InvParts(host, s);
      assert forall j :: Current(n, j) ==> Current(s, j) && j != id;
      assert n.client == s.client || Current(s, id);
      CertainAfterLoad(host, s, n, id);
      InvFrom(host, n);
    }
  }

  lemma CertainAfterLoad(host: Host, s: System, n: System, id: nat)
    requires CertainOk(host, s) && CurrentOk(s) && id in s.tasks && s.tasks[id].Loading?
    requires n.tasks == s.tasks - {id} && n.net == s.net && LogOf(host, n) == LogOf(host, s)
    requires n.client.attempt == s.client.attempt && n.client.generation == s.client.generation
    ensures CertainOk(host, n)
  {
    hide KeyInLog, LogOf;
    if s.client.attempt.Some? && !s.client.attempt.value.uncertain {
      var j :| CertainBy(host, s, j);
      assert CertainBy(host, n, j);
    }
  }

  // ------------------------------------------------------------ the network's events

  /** Losing a message, or garbling an answer, never makes anything certain. */
  lemma NetShrinks(host: Host, s: System, net: map<nat, Packet>)
    requires Inv(host, s)
    requires forall id :: id in net ==> id in s.net && (net[id] == s.net[id] || net[id] == Reply(Garbled))
    ensures Inv(host, s.(net := net))
  {
    hide Serving, Owned, KeyInLog, Inv, TasksOk, ClientOk, CurrentOk, CertainOk, LedgerOk;
    var n := s.(net := net);
    InvParts(host, s);
    SameTasks(host, s, n);
    assert LogOf(host, n) == LogOf(host, s);
    StillCertain(host, s, n);
    InvFrom(host, n);
  }

  /** A task resumes: with a receipt that the log backs, or with a refusal that the log does not contradict. */
  lemma SettledKeeps(host: Host, s: System, id: nat, out: Outcome)
    requires Inv(host, s) && id in s.tasks && s.tasks[id].Dispatching?
    requires out.Answered? ==> KeyInLog(LogOf(host, s), out.receipt.key)
    requires (&& Current(s, id) && !s.tasks[id].attempt.uncertain && !s.tasks[id].recover
              && out.Refused? && out.code != ApiInternal) ==>
               && !KeyInLog(LogOf(host, s), s.tasks[id].attempt.body.key)
               && (forall j :: j in s.net && s.net[j].Post? ==> s.net[j].body.key != s.tasks[id].attempt.body.key)
    ensures Inv(host, Settled(host, s, id, out))
  {
    hide Serving, Owned, KeyInLog;
    var n := Settled(host, s, id, out);
    assert LogOf(host, n) == LogOf(host, s);
    if Current(s, id) {
      assert forall j :: Current(n, j) ==> Current(s, j);
    } else {
      assert n == s.(tasks := s.tasks - {id});
      assert forall j :: Current(n, j) <==> Current(s, j);
      if s.client.attempt.Some? && !s.client.attempt.value.uncertain {
        var j :| CertainBy(host, s, j);
        assert CertainBy(host, n, j);
      }
    }
  }

  lemma ArriveKeeps(host: Host, s: System, id: nat)
    requires Inv(host, s)
    ensures Inv(host, Step(host, s, Arrive(id)))
  {
    hide Serving, Owned, KeyInLog, Settled;
    if id in s.tasks && s.tasks[id].Dispatching? && id in s.net && s.net[id].Reply? {
      var out := s.net[id].outcome;
      var m := s.(net := s.net - {id});
      NetShrinks(host, s, s.net - {id});
      assert LogOf(host, m) == LogOf(host, s);
      assert Current(m, id) <==> Current(s, id);
      if Current(s, id) && !s.tasks[id].attempt.uncertain && !s.tasks[id].recover && out.Refused? && out.code != ApiInternal {
        var j :| CertainBy(host, s, j);
        assert j == id;
      }
      SettledKeeps(host, m, id, out);
    }
  }

  // ------------------------------------------------------------ the events that write

  lemma LogGrows(log: seq<Entry>, next: seq<Entry>, q: Request, expected: nat)
    requires Extends(log, next, q, expected)
    ensures forall k :: KeyInLog(log, k) ==> KeyInLog(next, k)
    ensures forall k :: k != q.key ==> (KeyInLog(next, k) <==> KeyInLog(log, k))
    ensures forall i :: 0 <= i < |next| ==> (i < |log| && next[i] == log[i]) || (next[i].request == q && next[i].expected == expected)
  {
    forall i | 0 <= i < |log|
      ensures i < |next| && next[i] == log[i]
    {
      assert next[..|log|][i] == log[i];
    }
    forall k | KeyInLog(next, k) && k != q.key
      ensures KeyInLog(log, k)
    {
      var i :| 0 <= i < |next| && next[i].request.key == k;
      assert i < |log|;
    }
    forall k | KeyInLog(log, k)
      ensures KeyInLog(next, k)
    {
      var i :| 0 <= i < |log| && log[i].request.key == k;
      assert next[i].request.key == k;
    }
  }

  lemma ServePostKeeps(host: Host, s: System, id: nat, c: Circumstance)
    requires Inv(host, s) && id in s.net && s.net[id].Post?
    ensures Inv(host, Served(host, s, id, c))
  {
    hide Serving, HostCommand, Record, KeyInLog, Inv, TasksOk, ClientOk, CurrentOk, CertainOk, LedgerOk;
    var call, b := s.net[id].call, s.net[id].body;
    InvParts(host, s);
    assert PacketOk(host, s.issued, LogOf(host, s), s.net[id]);
    HostCommandMeans(host, s.db, s.books, call, b, c);
    var (next, r) := HostCommand(host, s.db, call, b, c);
    var n := Served(host, s, id, c);
    ServingLog(host, s);
    ServingLog(host, n);
    var log, after := LogOf(host, s), LogOf(host, n);
    LogGrows(log, after, RequestOf(b), b.expected);
    if r.Ok? {
      AnsweredInLog(after, RequestOf(b), b.expected);
    }
    SameTasks(host, s, n);
    PostServed(host, s, n, id, b);
    InvFrom(host, n);
  }

  /** Serving one message moves the log only under its own key, and not at all when the answer is a final refusal. */
  lemma PostServed(host: Host, s: System, n: System, id: nat, b: Body)
    requires CertainOk(host, s) && id in s.net && s.net[id].Post? && s.net[id].body == b
    requires n.client == s.client && n.tasks == s.tasks && id in n.net && n.net == s.net[id := n.net[id]] && n.net[id].Reply?
    requires forall k :: k != b.key ==> (KeyInLog(LogOf(host, n), k) <==> KeyInLog(LogOf(host, s), k))
    requires Final(n.net[id]) ==> LogOf(host, n) == LogOf(host, s)
    ensures CertainOk(host, n)
  {
    hide KeyInLog, LogOf;
    if s.client.attempt.Some? && !s.client.attempt.value.uncertain {
      var j :| CertainBy(host, s, j);
      assert Current(n, j) <==> Current(s, j);
      assert CertainBy(host, n, j);
    }
  }

  lemma ServingLog(host: Host, s: System)
    requires Serving(host, s.db, s.books)
    ensures host.scope.app in s.books && LogOf(host, s) == s.books[host.scope.app].log
  {
  }

  lemma AnsweredInLog(log: seq<Entry>, q: Request, expected: nat)
    requires InLog(log, q, expected)
    ensures KeyInLog(log, q.key)
  {
  }

  lemma ServeGetKeeps(host: Host, s: System, id: nat, c: Circumstance)
    requires Inv(host, s) && id in s.net && s.net[id].Get?
    ensures Inv(host, Served(host, s, id, c))
  {
    hide Serving, HostReceipt, Owned, Inv, TasksOk, ClientOk, CurrentOk, CertainOk, LedgerOk;
    var call, key := s.net[id].call, s.net[id].key;
    InvParts(host, s);
    assert PacketOk(host, s.issued, LogOf(host, s), s.net[id]);
    HostReceiptMeans(host, s.db, s.books, call, key, c);
    ServingLog(host, s);
    var n := Served(host, s, id, c);
    assert LogOf(host, n) == LogOf(host, s);
    SameTasks(host, s, n);
    GetServed(host, s, n, id);
    InvFrom(host, n);
  }

  lemma GetServed(host: Host, s: System, n: System, id: nat)
    requires CertainOk(host, s) && id in s.net && s.net[id].Get?
    requires n.client == s.client && n.tasks == s.tasks && id in n.net && n.net == s.net[id := n.net[id]] && n.net[id].Reply?
    requires LogOf(host, n) == LogOf(host, s)
    ensures CertainOk(host, n)
  {
    hide KeyInLog, LogOf;
    if s.client.attempt.Some? && !s.client.attempt.value.uncertain {
      var j :| CertainBy(host, s, j);
      assert Current(n, j) <==> Current(s, j);
      assert CertainBy(host, n, j);
    }
  }

  lemma ForeignKeeps(host: Host, s: System, a: Action)
    requires Inv(host, s)
    ensures Inv(host, Step(host, s, Foreign(a)))
  {
    hide Serving, Record, KeyInLog, Act, Inv, TasksOk, ClientOk, CurrentOk, CertainOk, LedgerOk;
    if Admissible(a) && (a.Submit? ==> a.request.key !in s.issued) {
      var n := Step(host, s, Foreign(a));
      InvParts(host, s);
      ServingLog(host, s);
      ForeignServes(host, s, a);
      ServingLog(host, n);
      if a.Submit? {
        LogGrows(LogOf(host, s), LogOf(host, n), a.request, a.expected);
      }
      SameTasks(host, s, n);
      ForeignOwned(host, LogOf(host, s), LogOf(host, n), s, n, a);
      CertainIssued(host, s, n);
      InvFrom(host, n);
    }
  }

  lemma ForeignOwned(host: Host, log: seq<Entry>, after: seq<Entry>, s: System, n: System, a: Action)
    requires Owned(log, s.issued, s.foreign, host.release) && n.issued == s.issued
    requires a.Submit? ==> a.request.key !in s.issued
    requires n.foreign == if a.Submit? then s.foreign + {a.request.key} else s.foreign
    requires after == log || (a.Submit? && forall i :: 0 <= i < |after| ==> (i < |log| && after[i] == log[i]) || after[i].request == a.request)
    ensures Owned(after, n.issued, n.foreign, host.release)
  {
  }

  /** What others commit leaves a certain attempt as it was: it never carries one of their keys. */
  lemma CertainIssued(host: Host, s: System, n: System)
    requires CertainOk(host, s) && ClientOk(s) && n.client == s.client && n.tasks == s.tasks && n.net == s.net
    requires forall k :: k in s.issued ==> (KeyInLog(LogOf(host, n), k) <==> KeyInLog(LogOf(host, s), k))
    ensures CertainOk(host, n)
  {
    hide KeyInLog, LogOf;
    if s.client.attempt.Some? && !s.client.attempt.value.uncertain {
      var j :| CertainBy(host, s, j);
      assert Current(n, j) <==> Current(s, j);
      assert CertainBy(host, n, j);
    }
  }

  lemma ForeignServes(host: Host, s: System, a: Action)
    requires Serving(host, s.db, s.books) && Admissible(a)
    ensures var db, books := Act(host.cfg, s.db, a), Record(host.cfg, s.db, s.books, a);
            && Serving(host, db, books)
            && (books[host.scope.app].log == s.books[host.scope.app].log
                || (a.Submit? && Extends(s.books[host.scope.app].log, books[host.scope.app].log, a.request, a.expected)))
  {
    hide Journalled, Record, Act;
    LogStep(host.cfg, s.db, s.books, a, host.scope.app);
  }

  // ------------------------------------------------------------ every run

  lemma StepKeeps(host: Host, s: System, e: Happening)
    requires Inv(host, s)
    ensures Inv(host, Step(host, s, e))
  {
    hide Inv, Served, Settled;
    match e {
      case Edit => EditKeeps(host, s);
      case Connect =>
        if !s.client.busy {
          EditKeeps(host, s);
          SpawnLoad(host, s.(client := Invalidated(s.client)), Connected(s.client));
        }
      case Refresh =>
        if Idle(s.client) {
          SpawnLoad(host, s, Refreshed(s.client));
        }
      case PickTable =>
        if Idle(s.client) {
          SpawnLoad(host, s, TablePicked(s.client));
        }
      case Issue(call, command, record, key, inputs) => IssueKeeps(host, s, call, command, record, key, inputs);
      case Again(call, recover) => AgainKeeps(host, s, call, recover);
      case Serve(id, c) =>
        if id in s.net {
          match s.net[id] {
            case Post(_, _) => ServePostKeeps(host, s, id, c);
            case Get(_, _) => ServeGetKeeps(host, s, id, c);
            case Reply(_) => ServeReply(host, s, id, c);
          }
        }
      case Lose(id) => NetShrinks(host, s, s.net - {id});
      case Spoil(id) =>
        if id in s.net && s.net[id].Reply? {
          NetShrinks(host, s, s.net[id := Reply(Garbled)]);
        }
      case Arrive(id) => ArriveKeeps(host, s, id);
      case GiveUp(id) =>
        if id in s.tasks && s.tasks[id].Dispatching? {
          SettledKeeps(host, s, id, Unreached);
        }
      case FinishLoad(id, view, denied) => FinishLoadKeeps(host, s, id, view, denied);
      case Foreign(a) => ForeignKeeps(host, s, a);
    }
  }

  lemma ServeReply(host: Host, s: System, id: nat, c: Circumstance)
    requires id in s.net && s.net[id].Reply?
    ensures Served(host, s, id, c) == s
  {
  }

  lemma {:induction false} RunInv(host: Host, s: System, events: seq<Happening>, n: nat)
    requires Initial(host, s) && n <= |events|
    ensures Inv(host, StateAt(host, s, events, n))
  {
    hide Inv, Step, Initial;
    if n == 0 {
      InitialInv(host, s);
    } else {
      RunInv(host, s, events, n - 1);
      StepKeeps(host, StateAt(host, s, events, n - 1), events[n - 1]);
    }
  }

  // ------------------------------------------------------------ the guarantees

  /** The history of a client only grows, and an issued body never changes. */
  lemma StepGrows(host: Host, s: System, e: Happening)
    ensures var n := Step(host, s, e);
            && s.dropped <= n.dropped && s.accepted <= n.accepted
            && forall k :: k in s.issued ==> k in n.issued && n.issued[k] == s.issued[k]
  {
    hide HostCommand, HostReceipt, Act, Record, Resolved, Loaded;
  }

  lemma {:induction false} RunGrows(host: Host, s: System, events: seq<Happening>, m: nat, n: nat)
    requires m <= n <= |events|
    ensures var a, b := StateAt(host, s, events, m), StateAt(host, s, events, n);
            && a.dropped <= b.dropped && a.accepted <= b.accepted
            && forall k :: k in a.issued ==> k in b.issued && b.issued[k] == a.issued[k]
    decreases n
  {
    hide Step;
    if m < n {
      RunGrows(host, s, events, m, n - 1);
      StepGrows(host, StateAt(host, s, events, n - 1), events[n - 1]);
    }
  }

  /** In a journal the expected revision of an entry is its place. */
  lemma ExpectedIsPlace(host: Host, db: Db, books: Books, i: nat)
    requires Serving(host, db, books) && i < |books[host.scope.app].log|
    ensures books[host.scope.app].log[i].expected == i + 1
  {
    hide Checked, HeadOk, Decided, Decide, FactsAfter, NothingElse;
    assert BookOk(host.cfg, db, host.scope.app, books[host.scope.app]);
    assert Posted(host.cfg, db, host.scope.app, books[host.scope.app], i);
  }

  /**
   At most once: whatever the network does, and under whatever credentials the client retries, the
   body issued under a key is committed at most once, unchanged, and at the revision it names.
   */
  lemma CommittedAtMostOnce(host: Host, s: System, events: seq<Happening>, n: nat, key: string)
    requires Initial(host, s) && n <= |events| && key in StateAt(host, s, events, n).issued
    ensures var now := StateAt(host, s, events, n);
            forall i :: 0 <= i < |LogOf(host, now)| && LogOf(host, now)[i].request.key == key ==>
              && LogOf(host, now)[i].request == RequestOf(now.issued[key])
              && i + 1 == now.issued[key].expected
  {
    hide Serving, Step, NetOk, TasksOk, ClientOk, CurrentOk, CertainOk, DroppedOk, AcceptedOk, Initial;
    RunInv(host, s, events, n);
    var now := StateAt(host, s, events, n);
    ServingLog(host, now);
    forall i | 0 <= i < |LogOf(host, now)| && LogOf(host, now)[i].request.key == key
      ensures LogOf(host, now)[i].request == RequestOf(now.issued[key]) && i + 1 == now.issued[key].expected
    {
      ExpectedIsPlace(host, now.db, now.books, i);
    }
  }

  /** At rest, a retained attempt is always uncertain. */
  lemma RetainedIsUncertain(host: Host, s: System, events: seq<Happening>, n: nat)
    requires Initial(host, s) && n <= |events|
    ensures var c := StateAt(host, s, events, n).client;
            c.attempt.Some? && !c.busy ==> c.attempt.value.uncertain
  {
    hide Serving, Step, NetOk, TasksOk, CurrentOk, CertainOk, DroppedOk, AcceptedOk, Initial, Owned;
    RunInv(host, s, events, n);
  }

  /** Every issued attempt is retained, accepted or dropped, and only one of these. */
  lemma EveryAttemptAccountedFor(host: Host, s: System, events: seq<Happening>, n: nat, key: string)
    requires Initial(host, s) && n <= |events| && key in StateAt(host, s, events, n).issued
    ensures var now := StateAt(host, s, events, n);
            var retained := now.client.attempt.Some? && now.client.attempt.value.body.key == key;
            && (retained || key in now.accepted || key in now.dropped)
            && !(retained && (key in now.accepted || key in now.dropped))
            && !(key in now.accepted && key in now.dropped)
  {
    hide Serving, Step, NetOk, TasksOk, CurrentOk, CertainOk, Initial, Owned, KeyInLog;
    RunInv(host, s, events, n);
  }

  /** An accepted receipt means exactly one commit with that key, now and for ever, and it is the one the client asked for. */
  lemma AcceptedMeansCommitted(host: Host, s: System, events: seq<Happening>, m: nat, n: nat, key: string)
    requires Initial(host, s) && m <= n <= |events| && key in StateAt(host, s, events, m).accepted
    ensures var now := StateAt(host, s, events, n);
            && key in now.issued
            && var i := now.issued[key].expected - 1;
               && 0 <= i < |LogOf(host, now)| && LogOf(host, now)[i].request == RequestOf(now.issued[key])
               && forall j :: 0 <= j < |LogOf(host, now)| && LogOf(host, now)[j].request.key == key ==> j == i
  {
    hide Serving, Step, NetOk, TasksOk, ClientOk, CurrentOk, CertainOk, DroppedOk, Initial, Owned;
    RunGrows(host, s, events, m, n);
    RunInv(host, s, events, n);
    CommittedAtMostOnce(host, s, events, n, key);
    var now := StateAt(host, s, events, n);
    var i :| 0 <= i < |LogOf(host, now)| && LogOf(host, now)[i].request.key == key;
  }

  /** An attempt dropped without a receipt is not committed, and never will be. */
  lemma DroppedNeverCommitted(host: Host, s: System, events: seq<Happening>, m: nat, n: nat, key: string)
    requires Initial(host, s) && m <= n <= |events| && key in StateAt(host, s, events, m).dropped
    ensures forall i :: 0 <= i < |LogOf(host, StateAt(host, s, events, n))| ==>
              LogOf(host, StateAt(host, s, events, n))[i].request.key != key
  {
    hide Serving, Step, NetOk, TasksOk, ClientOk, CurrentOk, CertainOk, AcceptedOk, Initial, Owned;
    RunGrows(host, s, events, m, n);
    RunInv(host, s, events, n);
  }
}
