/**
 Host authority: a resolved context is the only thing that ever grants a write, and it is resolved
 again for every use. What the host looks up is an input; how it is judged is modelled here.
 */
module Authority {
  import opened Wrappers
  import opened AppSpec
  import opened Records

  datatype Grant = Design | Publish | Manage | Read | Write | Submit

  datatype AuthorityError =
    MissingSession | Unverified | Expired | Revoked | WrongScope | MissingGrant | OriginDenied | BindingUnavailable

  datatype Session = Session(actor: string, expiresAt: nat, revoked: bool)

  datatype Membership =
    Membership(actor: string, scope: Scope, active: bool, revision: nat, grants: set<Grant>, roles: set<int>)

  datatype Binding = Binding(scope: Scope, id: string, origins: set<string>)

  /** One coherent reading of the host's clock, session, membership and registry. */
  datatype Access = Access(now: nat, session: Session, membership: Membership, binding: Binding)

  datatype Channel = NativeBearer | BrowserMutation(origin: Option<string>)

  datatype Context = Context(actor: string, scope: Scope, roles: set<int>, membershipRevision: nat, binding: string)

  /** Who calls, for which application, how the call arrived, and the time it was stamped with. */
  datatype Call = Call(credential: string, scope: Scope, channel: Channel, now: nat)

  type Reading = Result<Access, AuthorityError>

  /** The three readings that one operation takes: on entry, while preparing, and before it commits. */
  datatype Readings = Readings(entry: Reading, prepare: Reading, commit: Reading)

  function Resolve(call: Call, grant: Grant, reading: Reading): Result<Context, AuthorityError> {
    if call.credential == "" then Err(MissingSession)
    else
      match reading
      case Err(e) => Err(e)
      case Ok(Access(now, session, membership, binding)) =>
        if session.revoked then Err(Revoked)
        else if now >= session.expiresAt then Err(Expired)
        else if membership.actor != session.actor || membership.scope != call.scope then Err(WrongScope)
        else if !membership.active || membership.revision == 0 then Err(Revoked)
        else if grant !in membership.grants then Err(MissingGrant)
        else if binding.scope != call.scope then Err(WrongScope)
        else if binding.id == "" || |binding.id| > 96 then Err(BindingUnavailable)
        else if call.channel.BrowserMutation?
                && (call.channel.origin.None? || call.channel.origin.value !in binding.origins) then Err(OriginDenied)
        else Ok(Context(session.actor, call.scope, membership.roles, membership.revision, binding.id))
  }

  /** A row is writable by its owner and by the roles its policy names, within the resolved scope. */
  predicate Allows(policy: Policy, context: Context, row: RawRecord) {
    && row.scope == context.scope
    && row.table == policy.table
    && (Get(row.values, policy.ownerField) == Text(context.actor) || policy.writeRoles * context.roles != {})
  }

  /** A reading under which `call` may use `grant`: session, membership, grant, scope, binding and origin all hold now. */
  predicate Live(call: Call, grant: Grant, reading: Reading) {
    && call.credential != "" && reading.Ok?
    && var a := reading.value;
       && !a.session.revoked && a.now < a.session.expiresAt
       && a.membership.actor == a.session.actor && a.membership.active && a.membership.revision > 0
       && grant in a.membership.grants
       && a.membership.scope == a.binding.scope == call.scope
       && 0 < |a.binding.id| <= 96
       && (call.channel.BrowserMutation? ==> call.channel.origin.Some? && call.channel.origin.value in a.binding.origins)
  }

  /** A context is resolved from live readings only, and speaks only for the scope it was asked about. */
  lemma ResolvedMeans(call: Call, grant: Grant, reading: Reading)
    ensures Resolve(call, grant, reading).Ok? <==> Live(call, grant, reading)
    ensures Resolve(call, grant, reading).Ok? ==>
              var c, a := Resolve(call, grant, reading).value, reading.value;
              && c.scope == call.scope && c.actor == a.session.actor && c.roles == a.membership.roles
              && c.membershipRevision == a.membership.revision && c.binding == a.binding.id
  {
  }
}
