/** Exactly when intents, subjects, grants and lease bindings are accepted, and all they carry. */
module GrantAnswers {
  import opened Constraints
  import opened Grants
  import opened Scopes
  import opened Text

  // ----- effects -----

  lemma EffectClasses(op: Operation)
    ensures Effect(op).Inspect? <==> op.Capability?
    ensures Effect(op).LocalRead? <==> op.InspectWorkspace?
    ensures Effect(op).SecretUse? <==> op.NeedSecret?
    ensures Effect(op).ExternalWrite? <==> op.Share?
    ensures Effect(op).LocalWrite? <==>
      op in {AssumePlace, FixAuth, Leave, RunEngineeringCheck, SetupWorkspace}
  {
  }

  // ----- intents -----

  /** No request to a network passes these scopes. */
  predicate Offline(n: Network) {
    n.schemes == Denied && n.hosts == Denied && n.ports == Denied && n.methods == Denied && n.paths == Denied
  }

  predicate ProviderNamed(p: Provider) {
    p.Provider? ==> MadeOf(p.name, 64, ALPHANUMERIC + "-_")
  }

  /** Only a share names a provider, reaches the network and moves bytes; nothing may spend. */
  predicate FitsOperation(i: Intent) {
    var uses := i.constraints.uses;
    && i.constraints.readOnly == (i.operation in {Capability, InspectWorkspace})
    && i.constraints.spend.maxMinorUnits == 0
    && (i.operation == Share ==>
        && i.provider != NoProvider && !Offline(i.constraints.network)
        && uses.capacity != NoCapacity && uses.request != NoBytes && uses.response != NoBytes)
    && (i.operation != Share ==> i.provider == NoProvider && Offline(i.constraints.network))
  }

  lemma IntentAnswers(i: Intent)
    ensures var v := ValidateIntent(i);
      && (v.SchemaOk? <==>
          i.schemaVersion == 1 && ProviderNamed(i.provider) && Validate(i.constraints).Pass? && FitsOperation(i))
      && (v == SchemaBad(UnsupportedVersion(i.schemaVersion)) <==> i.schemaVersion != 1)
      && (v == SchemaBad(InvalidProvider) <==> i.schemaVersion == 1 && !ProviderNamed(i.provider))
      && (v.SchemaBad? && v.error.InvalidConstraints? <==>
          i.schemaVersion == 1 && ProviderNamed(i.provider) && Validate(i.constraints).Fail?)
      && (v.SchemaBad? && v.error.InvalidConstraints? ==> Validate(i.constraints) == Fail(v.error.error))
      && (v == SchemaBad(OperationConstraintMismatch) <==>
          i.schemaVersion == 1 && ProviderNamed(i.provider) && Validate(i.constraints).Pass? && !FitsOperation(i))
  {
    hide Validate, MadeOf, IsLabel;
    if i.provider.Provider? {
      LabelIs(i.provider.name, 64, "-_");
    }
  }

  // ----- subjects -----

  predicate SubjectLabel(s: string) {
    MadeOf(s, 128, ALPHANUMERIC + "-_.")
  }

  predicate SubjectLabels(a: Authority) {
    && SubjectLabel(a.tenantId) && SubjectLabel(a.principalId) && SubjectLabel(a.role) && SubjectLabel(a.environment)
  }

  /** The epoch is 32 lower-case hex digits. */
  predicate EpochOk(epoch: string) {
    |epoch| == 32 && forall i | 0 <= i < |epoch| :: epoch[i] in "0123456789abcdef"
  }

  lemma EpochIs(epoch: string)
    ensures EpochOk(epoch) <==> |epoch| == 32 && !exists j | 0 <= j < |epoch| :: !IsLowerHex(epoch[j])
  {
    forall j | 0 <= j < |epoch|
      ensures IsLowerHex(epoch[j]) <==> epoch[j] in "0123456789abcdef"
    {
      LowerHexIs(epoch[j]);
    }
  }

  lemma AuthorityAnswers(a: Authority)
    ensures var v := ValidateAuthority(a);
      var session := EpochOk(a.epoch) && a.sessionGeneration > 0;
      && (v.SchemaOk? <==> a.schemaVersion == 1 && SubjectLabels(a) && session)
      && (v == SchemaBad(UnsupportedVersion(a.schemaVersion)) <==> a.schemaVersion != 1)
      && (v == SchemaBad(InvalidAuthorityLabel) <==> a.schemaVersion == 1 && !SubjectLabels(a))
      && (v == SchemaBad(InvalidAuthorityGeneration) <==> a.schemaVersion == 1 && SubjectLabels(a) && !session)
  {
    hide MadeOf, IsLabel, EpochOk, IsLowerHex;
    LabelIs(a.tenantId, 128, "-_.");
    LabelIs(a.principalId, 128, "-_.");
    LabelIs(a.role, 128, "-_.");
    LabelIs(a.environment, 128, "-_.");
    EpochIs(a.epoch);
  }

  // ----- verified grants -----

  /** The intent is for the subject's own workspace, manifest and environment. */
  predicate SameSubject(i: Intent, a: Authority) {
    && i.workspaceId == a.workspaceId && i.manifestSha256 == a.manifestSha256
    && i.constraints.environment == a.environment
  }

  /** What the grant adds can be met with the intent, and does not make a writing intent read-only. */
  predicate Meetable(i: Intent, granted: Constraints) {
    && Validate(granted).Pass? && granted.environment == i.constraints.environment
    && granted.time.notBefore < i.constraints.time.expiresAt && i.constraints.time.notBefore < granted.time.expiresAt
    && granted.time.notBefore < granted.time.expiresAt && i.constraints.time.notBefore < i.constraints.time.expiresAt
    && (granted.readOnly ==> i.constraints.readOnly)
  }

  predicate InBothWindows(i: Intent, granted: Constraints, at: nat) {
    && i.constraints.time.notBefore <= at < i.constraints.time.expiresAt
    && granted.time.notBefore <= at < granted.time.expiresAt
  }

  lemma GrantedWhen(grantId: string, i: Intent, a: Authority, granted: Constraints, at: nat)
    ensures var v := FromVerified(grantId, i, a, granted, at);
      var ours := ValidateIntent(i).SchemaOk?;
      var subject := ValidateAuthority(a).SchemaOk? && SameSubject(i, a) && Meetable(i, granted);
      && (v.Granted? <==> ours && subject && InBothWindows(i, granted, at))
      && (v == NotGranted(VerbDenied) <==> !ours)
      && (v == NotGranted(SubjectMismatch) <==> ours && !subject)
      && (v == NotGranted(AuthorityExpired) <==> ours && subject && !InBothWindows(i, granted, at))
  {
    hide ValidateIntent, ValidateAuthority, Intersect, Validate, MeetNetwork;
    IntentConstraints(i);
    IntersectWhen(i.constraints, granted);
    TimeRule(granted);
  }

  lemma IntentConstraints(i: Intent)
    ensures ValidateIntent(i).SchemaOk? ==> Validate(i.constraints).Pass?
  {
  }

  lemma TimeRule(c: Constraints)
    ensures Validate(c).Pass? ==> c.time.notBefore < c.time.expiresAt
  {
  }

  /** A grant carries its own id and time, the intent's action, operation and arguments, and the
      subject it was verified for. */
  lemma GrantCarries(grantId: string, i: Intent, a: Authority, granted: Constraints, at: nat)
    requires FromVerified(grantId, i, a, granted, at).Granted?
    ensures var g := FromVerified(grantId, i, a, granted, at).grant;
      && g.grantId == grantId && g.actionId == i.actionId && g.operation == i.operation
      && g.argsSha256 == i.argsSha256 && g.authority == a && g.verifiedAt == at
      && g.authority.workspaceId == i.workspaceId && g.authority.manifestSha256 == i.manifestSha256
      && g.constraints.environment == i.constraints.environment == a.environment
  {
    hide ValidateIntent, ValidateAuthority, Validate, MeetNetwork;
  }

  // ----- lease bindings -----

  /** The operation only reads, by what it may do to the world. */
  predicate ReadsOnly(op: Operation) {
    op in {Capability, InspectWorkspace}
  }

  lemma BindingAnswers(b: Binding)
    ensures var v := ValidateBinding(b);
      var subject := ValidateAuthority(b.authority).SchemaOk?;
      var valid := subject && Validate(b.constraints).Pass?;
      var current := valid && b.generation > 0;
      var placed := current && b.constraints.environment == b.authority.environment;
      var usable := placed && b.constraints.uses.capacity != NoCapacity;
      && (v == BoundTo(b) <==> usable && b.constraints.readOnly == ReadsOnly(b.operation))
      && (v.BoundTo? ==> v == BoundTo(b))
      && (v.NotBound? && v.error.BadAuthority? <==> !subject)
      && (v.NotBound? && v.error.BadConstraints? <==> subject && !valid)
      && (v == NotBound(InvalidBrokerGeneration) <==> valid && !current)
      && (v == NotBound(BindingEnvironmentMismatch) <==> current && !placed)
      && (v == NotBound(NoUsableCapacity) <==> placed && !usable)
      && (v == NotBound(BindingOperationMismatch) <==> usable && b.constraints.readOnly != ReadsOnly(b.operation))
  {
    hide ValidateAuthority, Validate;
    EffectClasses(b.operation);
  }

  /** A lease binding carries the grant, field by field, with the lease id and generation it is for. */
  lemma BindingCarries(leaseId: string, g: Grant, generation: nat)
    requires BindLease(leaseId, g, generation).BoundTo?
    ensures var b := BindLease(leaseId, g, generation).binding;
      && b.leaseId == leaseId && b.generation == generation && b.grantId == g.grantId && b.actionId == g.actionId
      && b.operation == g.operation && b.argsSha256 == g.argsSha256 && b.authority == g.authority
      && b.constraints == g.constraints
  {
    hide ValidateAuthority, Validate;
  }
}
