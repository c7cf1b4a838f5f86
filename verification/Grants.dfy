/** From an action intent to a verified grant to a lease binding. */
module Grants {
  import opened Text
  import opened Constraints

  const SCHEMA_VERSION: nat := 1

  datatype Operation =
    | AssumePlace | Capability | FixAuth | InspectWorkspace | Leave | NeedSecret
    | RunEngineeringCheck | SetupWorkspace | Share

  datatype EffectClass = Inspect | LocalRead | LocalWrite | ExternalWrite | SecretUse

  function Effect(op: Operation): EffectClass {
    match op
    case Capability => Inspect
    case InspectWorkspace => LocalRead
    case AssumePlace | FixAuth | Leave | RunEngineeringCheck | SetupWorkspace => LocalWrite
    case NeedSecret => SecretUse
    case Share => ExternalWrite
  }

  datatype Provider = NoProvider | Provider(name: string)

  datatype Intent = Intent(
    schemaVersion: nat, actionId: string, workspaceId: string, manifestSha256: string, operation: Operation,
    provider: Provider, argsSha256: string, requestedAt: nat, constraints: Constraints)

  datatype Authority = Authority(
    schemaVersion: nat, workspaceId: string, manifestSha256: string, placeId: string, bindingId: string,
    tenantId: string, principalId: string, role: string, environment: string, vaultNamespaceId: string,
    installationId: string, sessionId: string, epoch: string, sessionGeneration: nat,
    subjectSha256: string, policySha256: string)

  datatype SchemaError =
    | UnsupportedVersion(version: nat) | InvalidProvider | InvalidAuthorityLabel | InvalidAuthorityGeneration
    | OperationConstraintMismatch | InvalidConstraints(error: ConstraintError)

  datatype Schema = SchemaOk | SchemaBad(error: SchemaError)

  predicate NetworkDenied(n: Network) {
    n.schemes.Denied? && n.hosts.Denied? && n.ports.Denied? && n.methods.Denied? && n.paths.Denied?
  }

  predicate SpendForbidden(s: Spend) {
    s.maxMinorUnits == 0
  }

  predicate OperationFits(i: Intent) {
    var c := i.constraints;
    if i.operation.Share? then
      && i.provider.Provider? && !NetworkDenied(c.network) && !c.uses.capacity.NoCapacity?
      && !c.uses.request.NoBytes? && !c.uses.response.NoBytes? && SpendForbidden(c.spend)
    else
      i.provider.NoProvider? && NetworkDenied(c.network) && SpendForbidden(c.spend)
  }

  function ValidateIntent(i: Intent): Schema {
    if i.schemaVersion != SCHEMA_VERSION then SchemaBad(UnsupportedVersion(i.schemaVersion))
    else if i.provider.Provider? && !IsLabel(i.provider.name, 64, "-_") then SchemaBad(InvalidProvider)
    else if Validate(i.constraints).Fail? then SchemaBad(InvalidConstraints(Validate(i.constraints).error))
    else if i.constraints.readOnly != (i.operation.Capability? || i.operation.InspectWorkspace?)
      then SchemaBad(OperationConstraintMismatch)
    else if !OperationFits(i) then SchemaBad(OperationConstraintMismatch)
    else SchemaOk
  }

  function ValidateAuthority(a: Authority): Schema {
    if a.schemaVersion != SCHEMA_VERSION then SchemaBad(UnsupportedVersion(a.schemaVersion))
    else if !IsLabel(a.tenantId, 128, "-_.") || !IsLabel(a.principalId, 128, "-_.")
         || !IsLabel(a.role, 128, "-_.") || !IsLabel(a.environment, 128, "-_.")
      then SchemaBad(InvalidAuthorityLabel)
    else if |a.epoch| != 32 || (exists j | 0 <= j < |a.epoch| :: !IsLowerHex(a.epoch[j])) || a.sessionGeneration == 0
      then SchemaBad(InvalidAuthorityGeneration)
    else SchemaOk
  }

  datatype AuthorityError = SubjectMismatch | AuthorityExpired | VerbDenied

  datatype Grant = Grant(
    grantId: string, actionId: string, operation: Operation, authority: Authority, constraints: Constraints,
    argsSha256: string, verifiedAt: nat)

  datatype Verified = Granted(grant: Grant) | NotGranted(error: AuthorityError)

  function FromVerified(grantId: string, intent: Intent, authority: Authority, granted: Constraints, at: nat)
    : Verified
  {
    if ValidateIntent(intent).SchemaBad? then NotGranted(VerbDenied)
    else if ValidateAuthority(authority).SchemaBad? then NotGranted(SubjectMismatch)
    else if intent.workspaceId != authority.workspaceId || intent.manifestSha256 != authority.manifestSha256
         || intent.constraints.environment != authority.environment
      then NotGranted(SubjectMismatch)
    else
      match Intersect(intent.constraints, granted)
      case Refused(_) => NotGranted(SubjectMismatch)
      case Narrow(c) =>
        if c.readOnly != intent.constraints.readOnly then NotGranted(SubjectMismatch)
        else if !ActiveAt(c.time, at) then NotGranted(AuthorityExpired)
        else Granted(Grant(grantId, intent.actionId, intent.operation, authority, c, intent.argsSha256, at))
  }

  datatype Binding = Binding(
    leaseId: string, grantId: string, actionId: string, operation: Operation, authority: Authority,
    argsSha256: string, generation: nat, constraints: Constraints)

  datatype BindingError =
    | BadAuthority(schema: SchemaError) | BadConstraints(error: ConstraintError) | InvalidBrokerGeneration
    | BindingEnvironmentMismatch | NoUsableCapacity | BindingOperationMismatch

  datatype Bound = BoundTo(binding: Binding) | NotBound(error: BindingError)

  function ValidateBinding(b: Binding): Bound {
    if ValidateAuthority(b.authority).SchemaBad? then NotBound(BadAuthority(ValidateAuthority(b.authority).error))
    else if Validate(b.constraints).Fail? then NotBound(BadConstraints(Validate(b.constraints).error))
    else if b.generation == 0 then NotBound(InvalidBrokerGeneration)
    else if b.constraints.environment != b.authority.environment then NotBound(BindingEnvironmentMismatch)
    else if b.constraints.uses.capacity.NoCapacity? then NotBound(NoUsableCapacity)
    else if b.constraints.readOnly != (Effect(b.operation).Inspect? || Effect(b.operation).LocalRead?)
      then NotBound(BindingOperationMismatch)
    else BoundTo(b)
  }

  function BindLease(leaseId: string, g: Grant, generation: nat): Bound {
    ValidateBinding(
      Binding(leaseId, g.grantId, g.actionId, g.operation, g.authority, g.argsSha256, generation, g.constraints))
  }

  // ----- results -----

  /** A grant permits exactly what both the intent and the granted constraints permit, at a time
      inside its window, and is as writable as the intent asked. */
  lemma GrantExact(grantId: string, intent: Intent, authority: Authority, granted: Constraints, at: nat, r: Request)
    requires FromVerified(grantId, intent, authority, granted, at).Granted?
    ensures var g := FromVerified(grantId, intent, authority, granted, at).grant;
      && (Permits(g.constraints, r) <==> Permits(intent.constraints, r) && Permits(granted, r))
      && Ok(g.constraints) && ActiveAt(g.constraints.time, at)
      && g.constraints.readOnly == intent.constraints.readOnly
  {
    hide Permits;
    IntersectExact(intent.constraints, granted, r);
    IntersectClosed(intent.constraints, granted);
  }

  /** Leasing a verified grant fails only for generation zero or denied capacity: every other
      check of the binding is implied by the grant's own. */
  lemma BindingFailsOnlyFor(grantId: string, intent: Intent, authority: Authority, granted: Constraints, at: nat,
                            leaseId: string, generation: nat)
    requires FromVerified(grantId, intent, authority, granted, at).Granted?
    ensures var g := FromVerified(grantId, intent, authority, granted, at).grant;
      var bound := BindLease(leaseId, g, generation);
      && (bound.BoundTo? <==> generation != 0 && !g.constraints.uses.capacity.NoCapacity?)
      && (bound == NotBound(InvalidBrokerGeneration) <==> generation == 0)
      && (bound == NotBound(NoUsableCapacity) <==> generation != 0 && g.constraints.uses.capacity.NoCapacity?)
      && (bound.BoundTo? ==> bound.binding.constraints == g.constraints)
  {
    hide Permits, Intersect;
    IntersectWhen(intent.constraints, granted);
    IntersectClosed(intent.constraints, granted);
    EffectIsReadOnly(intent.operation);
  }

  /** The intent's list of read-only operations and the effect classes agree. */
  lemma EffectIsReadOnly(op: Operation)
    ensures (op.Capability? || op.InspectWorkspace?) <==> (Effect(op).Inspect? || Effect(op).LocalRead?)
  {
  }

  /** What a validated intent can ask for at all: only sharing calls out, only writing operations
      write, and nothing spends. */
  ghost predicate WithinOperation(op: Operation, r: Request) {
    && (r.calls.OneCall? ==> op.Share?)
    && (r.writes ==> !Effect(op).Inspect? && !Effect(op).LocalRead?)
    && (r.payment.Payment? ==> r.payment.minorUnits == 0)
  }

  lemma IntentWithinOperation(i: Intent, r: Request)
    requires ValidateIntent(i).SchemaOk? && Permits(i.constraints, r)
    ensures WithinOperation(i.operation, r)
  {
    EffectIsReadOnly(i.operation);
  }

  ghost predicate Derives(b: Binding, intent: Intent, granted: Constraints,
                          grantId: string, authority: Authority, at: nat) {
    var v := FromVerified(grantId, intent, authority, granted, at);
    v.Granted? && BindLease(b.leaseId, v.grant, b.generation) == BoundTo(b)
  }

  /** A binding made from some verified intent: what a broker can reserve. */
  ghost predicate FromIntent(b: Binding, intent: Intent, granted: Constraints) {
    exists grantId, authority, at :: Derives(b, intent, granted, grantId, authority, at)
  }

  lemma BoundKeepsConstraints(leaseId: string, g: Grant, generation: nat)
    ensures BindLease(leaseId, g, generation).BoundTo? ==>
            BindLease(leaseId, g, generation).binding.constraints == g.constraints &&
            BindLease(leaseId, g, generation).binding.operation == g.operation
  {
  }

  lemma BindingNoWider(b: Binding, intent: Intent, granted: Constraints, r: Request)
    requires FromIntent(b, intent, granted)
    ensures Permits(b.constraints, r) <==> Permits(intent.constraints, r) && Permits(granted, r)
  {
    var grantId, authority, at :| Derives(b, intent, granted, grantId, authority, at);
    BoundKeepsConstraints(b.leaseId, FromVerified(grantId, intent, authority, granted, at).grant, b.generation);
    GrantExact(grantId, intent, authority, granted, at, r);
  }
}
