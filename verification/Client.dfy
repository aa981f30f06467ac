/**
 The runtime client: one retained attempt, one generation counter, and one rule for telling a final
 answer from an open one. The steps are functions on the client's state; the signals that carry
 that state are set in place by the methods of `Runtime`.
 */
module Client {
  import opened Wrappers
  import opened AppSpec
  import opened Params
  import opened Database
  import opened HostApi

  /** An immutable request body, and whether its outcome may already be settled behind the client's back. */
  datatype Attempt = Attempt(body: Body, uncertain: bool)

  /**
   What the client has on screen: from the metadata the release and the records each command is offered
   for, from the list the data revision and the records it shows.
   */
  datatype View = View(release: Option<Identity>, offers: set<(int, RecordId)>, revision: Option<nat>, records: set<RecordId>)

  datatype ClientState = ClientState(
    attempt: Option<Attempt>, busy: bool, generation: nat, receipt: Option<ReceiptDto>, view: View)

  const NOTHING_SHOWN := View(None, {}, None, {})

  /** What a request comes back with: a decoded receipt, a refusal, something undecodable, or nothing. */
  datatype Outcome = Answered(receipt: ReceiptDto) | Refused(code: Code) | Garbled | Unreached

  /** A suspended task: a dispatched attempt, or a load of metadata and rows. */
  datatype Task = Dispatching(attempt: Attempt, recover: bool, generation: nat) | Loading(generation: nat)

  datatype Follow = Done | ThenLoad

  // ------------------------------------------------------------ steps

  /** `invalidate`: every running task becomes stale, and a retained attempt becomes uncertain. */
  function Invalidated(c: ClientState): ClientState {
    ClientState(
      if c.attempt.Some? then Some(c.attempt.value.(uncertain := true)) else None,
      false, c.generation + 1, None, NOTHING_SHOWN)
  }

  /** `connect`, with a configuration that fits the retained attempt. */
  function Connected(c: ClientState): ClientState {
    if c.busy then c else Invalidated(c).(busy := true)
  }

  predicate Idle(c: ClientState) {
    !c.busy && c.attempt.None?
  }

  function Refreshed(c: ClientState): ClientState {
    if Idle(c) then c.(busy := true, view := NOTHING_SHOWN) else c
  }

  function TablePicked(c: ClientState): ClientState {
    if Idle(c) then c.(busy := true, view := c.view.(revision := None, records := {})) else c
  }

  function Resent(c: ClientState): ClientState {
    if !c.busy && c.attempt.Some? then c.(busy := true) else c
  }

  /** One attempt at a time, for a command that is offered for a record that is shown. */
  predicate CanSubmit(c: ClientState, command: int, record: RecordId) {
    && !c.busy && c.attempt.None?
    && c.view.release.Some? && c.view.revision.Some?
    && (command, record) in c.view.offers && record in c.view.records
  }

  /** The body that `submit` freezes: what is on screen decides the release and the expected revision. */
  function BodyOf(c: ClientState, command: int, record: RecordId, key: string, inputs: Values): Body
    requires CanSubmit(c, command, record)
  {
    Body(command, record, key, inputs, c.view.revision.value, c.view.release.value)
  }

  function Submitted(c: ClientState, b: Body): ClientState
    requires CanSubmit(c, b.command, b.record)
  {
    c.(attempt := Some(Attempt(b, false)), busy := true, receipt := None)
  }

  /** `receipt_matches`. */
  predicate ReceiptMatches(app: int, r: ReceiptDto, a: Attempt) {
    r.app == app && r.command == a.body.command && r.record == a.body.record && r.release == a.body.release && r.key == a.body.key
  }

  function Uncertain(c: ClientState, a: Attempt): ClientState {
    c.(attempt := Some(a.(uncertain := true)), busy := false)
  }

  /** `show_failure`: a denial also takes everything off the screen. */
  function Shown(c: ClientState, code: Code): ClientState {
    if code == ApiDenied then c.(view := NOTHING_SHOWN, receipt := None, busy := false) else c.(busy := false)
  }

  /** The tail of `dispatch`, when the answer arrives. */
  function Resolved(app: int, c: ClientState, t: Task, out: Outcome): (ClientState, Follow)
    requires t.Dispatching?
  {
    if c.generation != t.generation then (c, Done)
    else
      match out
      case Answered(r) =>
        if ReceiptMatches(app, r, t.attempt) then (c.(receipt := Some(r), attempt := None), ThenLoad)
        else (Uncertain(c, t.attempt), Done)
      case Refused(code) =>
        if code == ApiNotFound && t.recover then (c.(busy := false), Done)
        else if code == ApiInternal then (Uncertain(c, t.attempt), Done)
        else if !t.recover && !t.attempt.uncertain then (Shown(c.(attempt := None), code), Done)
        else (Shown(c, code), Done)
      case Garbled => (Uncertain(c, t.attempt), Done)
      case Unreached => (Uncertain(c, t.attempt), Done)
  }

  /** The tail of a load: whatever it shows, it ends the busy spell it started. */
  function Loaded(c: ClientState, t: Task, view: View, denied: bool): ClientState
    requires t.Loading?
  {
    if c.generation != t.generation then c
    else if denied then Shown(c, ApiDenied)
    else c.(view := view, busy := false)
  }

  // ------------------------------------------------------------ the signals

  class Runtime {
    const scope: Scope
    var attempt: Option<Attempt>
    var busy: bool
    var generation: nat
    var receipt: Option<ReceiptDto>
    var release: Option<Identity>
    var offers: set<(int, RecordId)>
    var revision: Option<nat>
    var records: set<RecordId>

    function State(): ClientState
      reads this
    {
      ClientState(attempt, busy, generation, receipt, View(release, offers, revision, records))
    }

    constructor (scope: Scope)
      ensures State() == ClientState(None, false, 0, None, NOTHING_SHOWN) && this.scope == scope
    {
      this.scope := scope;
      attempt, busy, generation, receipt := None, false, 0, None;
      release, offers, revision, records := None, {}, None, {};
    }

    method ClearScreen()
      modifies this`release, this`offers, this`revision, this`records, this`receipt
      ensures State() == old(State()).(view := NOTHING_SHOWN, receipt := None)
    {
      release, offers := None, {};
      revision, records := None, {};
      receipt := None;
    }

    method Invalidate()
      modifies this
      ensures State() == Invalidated(old(State()))
    {
      generation := generation + 1;
      ClearScreen();
      busy := false;
      if attempt.Some? {
        var unresolved := attempt.value;
        unresolved := unresolved.(uncertain := true);
        attempt := Some(unresolved);
      }
    }

    method Connect() returns (task: Option<Task>)
      modifies this
      ensures State() == Connected(old(State()))
      ensures task == if old(busy) then None else Some(Loading(generation))
    {
      if busy {
        return None;
      }
      Invalidate();
      busy := true;
      task := Some(Loading(generation));
    }

    /** `dispatch` up to its first suspension. */
    method Dispatch(retained: Attempt, recover: bool) returns (task: Option<Task>)
      modifies this`busy
      ensures State() == old(State()).(busy := true)
      ensures task == if old(busy) then None else Some(Dispatching(retained, recover, generation))
    {
      if busy {
        return None;
      }
      busy := true;
      task := Some(Dispatching(retained, recover, generation));
    }

    /** `refresh`: read metadata and rows again, unless something is under way. */
    method Refresh() returns (task: Option<Task>)
      modifies this
      ensures State() == Refreshed(old(State()))
      ensures task == if Idle(old(State())) then Some(Loading(generation)) else None
    {
      if busy || attempt.Some? {
        return None;
      }
      busy := true;
      release, offers := None, {};
      revision, records := None, {};
      task := Some(Loading(generation));
    }

    /** Choosing a table, which the page offers only while nothing is under way. */
    method PickTable() returns (task: Option<Task>)
      modifies this
      ensures State() == TablePicked(old(State()))
      ensures task == if Idle(old(State())) then Some(Loading(generation)) else None
    {
      if busy || attempt.Some? {
        return None;
      }
      busy := true;
      revision, records := None, {};
      task := Some(Loading(generation));
    }

    /** Retrying or recovering the retained attempt. */
    method Again(recover: bool) returns (task: Option<Task>)
      modifies this`busy
      ensures State() == Resent(old(State()))
      ensures task == if !old(busy) && attempt.Some? then Some(Dispatching(attempt.value, recover, generation)) else None
    {
      task := None;
      if attempt.Some? {
        task := Dispatch(attempt.value, recover);
      }
    }

    /** `submit`: the form is read field by field, and what it gives is frozen into one attempt. */
    method Submit(command: int, record: RecordId, key: string, fields: seq<InputField>, buffers: map<FieldId, string>)
      returns (task: Option<Task>)
      modifies this
      ensures task.Some? <==> CanSubmit(old(State()), command, record) && InputsGiven(fields, buffers)
      ensures task.Some? ==>
                var b := BodyOf(old(State()), command, record, key, Collected(fields, buffers, scope));
                State() == Submitted(old(State()), b) && task.value == Dispatching(Attempt(b, false), false, generation)
      ensures task.None? ==> State() == old(State())
    {
      if busy || attempt.Some? || release.None? || revision.None? {
        return None;
      }
      if (command, record) !in offers || record !in records {
        return None;
      }
      var params := CollectParams(fields, buffers, scope);
      match params {
        case None => return None;
        case Some(inputs) =>
          var body := Body(command, record, key, inputs, revision.value, release.value);
          receipt := None;
          attempt := Some(Attempt(body, false));
          task := Dispatch(Attempt(body, false), false);
      }
    }

    method ShowFailure(code: Code)
      modifies this
      ensures State() == Shown(old(State()), code)
    {
      if code == ApiDenied {
        ClearScreen();
      }
      busy := false;
    }

    method KeepUncertain(retained: Attempt)
      modifies this
      ensures State() == Uncertain(old(State()), retained)
    {
      attempt := Some(retained.(uncertain := true));
      busy := false;
    }

    method FinishReceipt(retained: Attempt, r: ReceiptDto) returns (follow: Follow)
      modifies this
      ensures State() == if ReceiptMatches(scope.app, r, retained) then old(State()).(receipt := Some(r), attempt := None)
                         else Uncertain(old(State()), retained)
      ensures follow == if ReceiptMatches(scope.app, r, retained) then ThenLoad else Done
    {
      if !ReceiptMatches(scope.app, r, retained) {
        KeepUncertain(retained);
        return Done;
      }
      receipt := Some(r);
      attempt := None;
      follow := ThenLoad;
    }

    /** `dispatch` from the moment its answer arrives. */
    method Resume(t: Task, out: Outcome) returns (follow: Follow)
      requires t.Dispatching?
      modifies this
      ensures (State(), follow) == Resolved(scope.app, old(State()), t, out)
    {
      if generation != t.generation {
        return Done;
      }
      follow := Done;
      match out {
        case Answered(r) =>
          follow := FinishReceipt(t.attempt, r);
        case Refused(code) =>
          if code == ApiNotFound && t.recover {
            busy := false;
          } else if code == ApiInternal {
            KeepUncertain(t.attempt);
          } else {
            if !t.recover && !t.attempt.uncertain {
              attempt := None;
            }
            ShowFailure(code);
          }
        case Garbled =>
          KeepUncertain(t.attempt);
        case Unreached =>
          KeepUncertain(t.attempt);
      }
    }

    /** The end of a load, when it is still wanted. */
    method FinishLoad(t: Task, view: View, denied: bool)
      requires t.Loading?
      modifies this
      ensures State() == Loaded(old(State()), t, view, denied)
    {
      if generation != t.generation {
        return;
      }
      if denied {
        ShowFailure(ApiDenied);
      } else {
        release, offers, revision, records := view.release, view.offers, view.revision, view.records;
        busy := false;
      }
    }
  }
}
