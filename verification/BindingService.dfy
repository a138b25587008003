/**
 The binding service, alone and under every interleaving: `bind` writes once, `enable`, `disable` and `update`
 read a binding and later write a changed copy of it, and other operations may run in between.
 */
module BindingService {
  import opened Outcomes
  import opened Integrations
  import opened WorkspaceBindings

  // The provider registry, fixed for the service's lifetime, when one is configured.
  type Registry = Option<map<string, Provider>>

  datatype BindPayload = BindPayload(
    workspaceId: string, userId: string, providerId: string, credential: Option<Credential>, grantedScopes: seq<string>)

  datatype UpdatePayload = UpdatePayload(
    status: Option<BindingStatus>, credential: Option<Credential>, grantedScopes: Option<seq<string>>)

  // Registered providers are filed under their own identifiers.
  predicate WellFormed(registry: Registry) {
    registry.Some? ==> forall p :: p in registry.value ==> registry.value[p].providerId == p
  }

  // A binding's credential belongs to its provider and, if it names owners, to its user and workspace.
  predicate CredentialFits(b: Binding) {
    b.credential.Some? ==>
      && b.credential.value.providerId == b.providerId
      && (b.credential.value.ownership.Some? ==> Owns(b.credential.value.ownership.value, b.userId, b.workspaceId))
  }

  // What the service promises of every binding it stores.
  predicate IsSound(registry: Registry, b: Binding) {
    && Distinct(b.grantedScopes)
    && CredentialFits(b)
    && (registry.Some? ==>
          && b.providerId in registry.value
          && !Blocked(registry.value[b.providerId])
          && Covers(b.grantedScopes, registry.value[b.providerId].requiredScopes))
  }

  // ---------- the checks ----------

  // A provider the registry knows and does not block.
  function ProviderFault(registry: Registry, providerId: string): Option<BindingError> {
    if registry.None? then None
    else if providerId !in registry.value then Some(ProviderUnknown)
    else if Blocked(registry.value[providerId]) then Some(ProviderBlocked)
    else None
  }

  function ScopeFault(registry: Registry, providerId: string, scopes: seq<string>): Option<BindingError> {
    if registry.None? then None
    else if providerId !in registry.value then Some(ProviderUnknown)
    else if !Covers(scopes, registry.value[providerId].requiredScopes) then Some(ScopesNotGranted)
    else None
  }

  // `ownershipRequired`: binding reads the owners of a credential without checking that it has any.
  function CredentialFault(
    credential: Credential, providerId: string, userId: string, workspaceId: string, now: nat, ownershipRequired: bool)
    : Option<BindingError>
  {
    if !IsUsableCredential(credential, now) then Some(CredentialUnusable)
    else if credential.providerId != providerId then Some(CredentialForeign)
    else if credential.ownership.None? then if ownershipRequired then Some(OwnershipAbsent) else None
    else if !Owns(credential.ownership.value, userId, workspaceId) then Some(CredentialForeign)
    else None
  }

  // bind_integration up to its write. Identifiers of new bindings are fresh.
  function NewBinding(registry: Registry, payload: BindPayload, id: string, now: nat): Result<Binding, BindingError> {
    var providerFault := ProviderFault(registry, payload.providerId);
    if !Distinct(payload.grantedScopes) then Err(ScopesRepeated)
    else if providerFault.Some? then Err(providerFault.value)
    else
      var scopeFault := ScopeFault(registry, payload.providerId, payload.grantedScopes);
      if scopeFault.Some? then Err(scopeFault.value)
      else
        var credentialFault :=
          if payload.credential.None? then None
          else CredentialFault(
            payload.credential.value, payload.providerId, payload.userId, payload.workspaceId, now, true);
        if credentialFault.Some? then Err(credentialFault.value)
        else Ok(Binding(id, payload.workspaceId, payload.userId, payload.providerId, Active, payload.credential,
                        payload.grantedScopes))
  }

  // get_binding's answer for what the repository returned.
  function Authorized(b: Option<Binding>, userId: Option<string>): Result<Binding, BindingError> {
    if b.None? then Err(NotFound)
    else if userId.Some? && b.value.userId != userId.value then Err(AccessDenied)
    else Ok(b.value)
  }

  // The three read-then-write operations.
  datatype Request = Disable | Enable | Amend(payload: UpdatePayload)

  // update_binding
  function Amended(registry: Registry, b: Binding, payload: UpdatePayload, now: nat): Result<Binding, BindingError> {
    var credentialFault :=
      if payload.credential.None? then None
      else CredentialFault(payload.credential.value, b.providerId, b.userId, b.workspaceId, now, false);
    if payload.grantedScopes.Some? && !Distinct(payload.grantedScopes.value) then Err(ScopesRepeated)
    else if credentialFault.Some? then Err(credentialFault.value)
    else
      var scopeFault :=
        if payload.grantedScopes.None? then None else ScopeFault(registry, b.providerId, payload.grantedScopes.value);
      if scopeFault.Some? then Err(scopeFault.value)
      else Ok(b.(
        status := if payload.status.Some? then payload.status.value else b.status,
        credential := if payload.credential.Some? then payload.credential else b.credential,
        grantedScopes := if payload.grantedScopes.Some? then payload.grantedScopes.value else b.grantedScopes))
  }

  // The copy an operation will write, computed from the binding it has read.
  function ChangedCopy(registry: Registry, b: Binding, request: Request, now: nat): Result<Binding, BindingError> {
    match request
    case Disable => Ok(b.(status := Disabled))
    case Enable =>
      var fault := ProviderFault(registry, b.providerId);
      if fault.Some? then Err(fault.value)
      else if b.credential.Some? && !IsUsableCredential(b.credential.value, now) then Err(CredentialUnusable)
      else Ok(b.(status := Active))
    case Amend(payload) => Amended(registry, b, payload, now)
  }

  // An operation whose read and write have nothing between them.
  function Changed(
    registry: Registry, records: Records, id: string, request: Request, userId: Option<string>, now: nat)
    : Result<Binding, BindingError>
  {
    var read := Authorized(if id in records then Some(records[id]) else None, userId);
    if read.Err? then read
    else
      var copy := ChangedCopy(registry, read.value, request, now);
      if copy.Err? then copy
      else
        match Updated(records, copy.value)
        case Err(e) => Err(e)
        case Ok(_) => copy
  }

  lemma NewBindingIsSound(registry: Registry, payload: BindPayload, id: string, now: nat)
    requires NewBinding(registry, payload, id, now).Ok?
    ensures var b := NewBinding(registry, payload, id, now).value;
            && b == Binding(id, payload.workspaceId, payload.userId, payload.providerId, Active, payload.credential,
                            payload.grantedScopes)
            && IsSound(registry, b)
  {
  }

  // Active, and not expired if it ever expires.
  predicate IsCurrent(credential: Credential, now: nat) {
    credential.status == CredentialActive && (credential.expiresAt == None || now < credential.expiresAt.value)
  }

  // The credential may be used by this user in this workspace for this provider.
  predicate MayUse(credential: Credential, providerId: string, userId: string, workspaceId: string, now: nat) {
    && IsCurrent(credential, now) && credential.providerId == providerId
    && (credential.ownership.Some? ==>
          && (credential.ownership.value.userId == None || credential.ownership.value.userId.value == userId)
          && (credential.ownership.value.workspaceId == None
              || credential.ownership.value.workspaceId.value == workspaceId))
  }

  predicate IsOpen(registry: Registry, providerId: string) {
    registry.Some? ==>
      providerId in registry.value && registry.value[providerId].status !in {ProviderDisabled, Unavailable}
  }

  predicate GrantsRequired(registry: Registry, providerId: string, scopes: seq<string>) {
    registry.Some? ==>
      && providerId in registry.value
      && forall scope :: scope in registry.value[providerId].requiredScopes ==> scope in scopes
  }

  // When binding succeeds before it reaches the store.
  lemma BindSucceedsExactly(registry: Registry, payload: BindPayload, id: string, now: nat)
    ensures NewBinding(registry, payload, id, now).Ok? <==>
            && Distinct(payload.grantedScopes)
            && IsOpen(registry, payload.providerId)
            && GrantsRequired(registry, payload.providerId, payload.grantedScopes)
            && (payload.credential.Some? ==>
                  && MayUse(payload.credential.value, payload.providerId, payload.userId, payload.workspaceId, now)
                  && payload.credential.value.ownership.Some?)
  {
  }

  // When a change is accepted before it reaches the store, and what it changes.
  lemma ChangeSucceedsExactly(registry: Registry, b: Binding, request: Request, now: nat)
    ensures ChangedCopy(registry, b, request, now).Ok? <==>
            match request
            case Disable => true
            case Enable =>
              IsOpen(registry, b.providerId) && (b.credential.Some? ==> IsCurrent(b.credential.value, now))
            case Amend(p) =>
              && (p.credential.Some? ==> MayUse(p.credential.value, b.providerId, b.userId, b.workspaceId, now))
              && (p.grantedScopes.Some? ==>
                    Distinct(p.grantedScopes.value) && GrantsRequired(registry, b.providerId, p.grantedScopes.value))
    ensures ChangedCopy(registry, b, request, now).Ok? ==>
            var b' := ChangedCopy(registry, b, request, now).value;
            && (request.Disable? ==> b' == b.(status := Disabled))
            && (request.Enable? ==> b' == b.(status := Active))
            && (request.Amend? ==>
                  && b' == b.(status := b'.status, credential := b'.credential, grantedScopes := b'.grantedScopes)
                  && (b'.status == match request.payload.status case None => b.status case Some(status) => status)
                  && (b'.credential == if request.payload.credential == None then b.credential
                                       else request.payload.credential)
                  && (b'.grantedScopes == match request.payload.grantedScopes
                                          case None => b.grantedScopes
                                          case Some(scopes) => scopes))
  {
  }

  // A change is refused for a binding that is not there or belongs to another user, for what the operation itself
  // checks, or because another binding holds the slot; otherwise the changed copy is stored.
  lemma ChangedExactly(
    registry: Registry, records: Records, id: string, request: Request, userId: Option<string>, now: nat)
    ensures Changed(registry, records, id, request, userId, now) ==
            if id !in records then Err(NotFound)
            else if userId != None && userId.value != records[id].userId then Err(AccessDenied)
            else
              var copy := ChangedCopy(registry, records[id], request, now);
              if copy.Err? then copy
              else if copy.value.bindingId !in records then Err(NotFound)
              else if SlotIsFree(records, copy.value) then copy
              else Err(Duplicate)
  {
    if id in records && ChangedCopy(registry, records[id], request, now).Ok? {
      UpdateSucceedsExactly(records, ChangedCopy(registry, records[id], request, now).value);
    }
  }

  datatype Identity = Identity(workspaceId: string, userId: string, providerId: string)

  function IdentityOf(b: Binding): Identity { Identity(b.workspaceId, b.userId, b.providerId) }

  // A changed copy of a sound binding is sound, and keeps its identifier, workspace, user and provider.
  lemma ChangedCopyIsSound(registry: Registry, b: Binding, request: Request, now: nat)
    requires IsSound(registry, b) && ChangedCopy(registry, b, request, now).Ok?
    ensures var b' := ChangedCopy(registry, b, request, now).value;
            IsSound(registry, b') && IdentityOf(b') == IdentityOf(b) && b'.bindingId == b.bindingId
  {
  }

  // ---------- preparing a request ----------

  function PrepareRequest(
    registry: Registry, active: Option<Binding>, capability: string, requestedScopes: Option<seq<string>>)
    : Result<IntegrationRequest, BindingError>
  {
    if active.None? then Err(NotFound)
    else
      var b := active.value;
      if registry.Some? && b.providerId !in registry.value then Err(ProviderUnknown)
      else if registry.Some? && capability !in registry.value[b.providerId].capabilities then Err(CapabilityMissing)
      else if !b.status.Active? || (b.credential.Some? && !b.credential.value.status.CredentialActive?) then
        Err(NotUsable)
      else
        var scopes :=
          if requestedScopes.Some? && requestedScopes.value != [] then requestedScopes.value else b.grantedScopes;
        if exists s :: s in scopes && s !in b.grantedScopes then Err(ScopesNotGranted)
        else if !Distinct(scopes) then Err(ScopesRepeated)
        else Ok(IntegrationRequest(b.userId, b.workspaceId, b.providerId, capability, scopes, b.credential))
  }

  // The scopes a request asks for: those named, or all that are granted when none is.
  function ScopesAsked(b: Binding, requestedScopes: Option<seq<string>>): seq<string> {
    match requestedScopes
    case None => b.grantedScopes
    case Some(scopes) => if scopes == [] then b.grantedScopes else scopes
  }

  // A request with these scopes may be made for this capability through this binding: the binding is active, with an
  // active credential if it has one; the registry, if any, knows its provider, which offers the capability; and the
  // scopes are granted and not repeated.
  predicate MaySend(registry: Registry, b: Binding, capability: string, scopes: seq<string>) {
    && b.status == Active
    && (b.credential.Some? ==> b.credential.value.status == CredentialActive)
    && (registry.Some? ==>
          b.providerId in registry.value && capability in registry.value[b.providerId].capabilities)
    && (forall s :: s in scopes ==> s in b.grantedScopes)
    && (forall i, j :: 0 <= i < j < |scopes| ==> scopes[i] != scopes[j])
  }

  // A request is prepared exactly when the binding may send it, and then carries the binding's own identity and
  // credential, the capability, and exactly the scopes asked for.
  lemma PrepareSucceedsExactly(
    registry: Registry, active: Option<Binding>, capability: string, requestedScopes: Option<seq<string>>)
    ensures var prepared := PrepareRequest(registry, active, capability, requestedScopes);
            if active.Some? && MaySend(registry, active.value, capability, ScopesAsked(active.value, requestedScopes))
            then
              && prepared.Ok?
              && prepared.value.userId == active.value.userId
              && prepared.value.workspaceId == active.value.workspaceId
              && prepared.value.providerId == active.value.providerId
              && prepared.value.credential == active.value.credential
              && prepared.value.capability == capability
              && prepared.value.requestedScopes == ScopesAsked(active.value, requestedScopes)
            else prepared.Err?
  {
  }

  // A request prepared from a sound binding passes the provider's checks exactly when its scopes cover the
  // required ones; with default scopes they always do.
  lemma PreparedRequestPassesExactly(
    registry: Registry, b: Binding, capability: string, requestedScopes: Option<seq<string>>)
    requires registry.Some? && WellFormed(registry) && IsSound(registry, b)
    requires PrepareRequest(registry, Some(b), capability, requestedScopes).Ok?
    ensures var request := PrepareRequest(registry, Some(b), capability, requestedScopes).value;
            var provider := registry.value[b.providerId];
            && (ValidateProviderRequest(provider, request, true).None? <==>
                  Covers(request.requestedScopes, provider.requiredScopes))
            && (requestedScopes.None? || requestedScopes.value == [] ==>
                  ValidateProviderRequest(provider, request, true).None?)
  {
  }

  /** The service over one repository. */
  class WorkspaceIntegrationService {
    const repository: InMemoryWorkspaceBindingRepository
    const registry: Registry

    constructor (repository: InMemoryWorkspaceBindingRepository, registry: Registry)
      ensures this.repository == repository && this.registry == registry
    {
      this.repository := repository;
      this.registry := registry;
    }

    method BindIntegration(payload: BindPayload, id: string, now: nat) returns (r: Result<Binding, BindingError>)
      requires repository.Valid()
      modifies repository
      ensures repository.Valid()
      ensures match NewBinding(registry, payload, id, now)
              case Err(e) => r == Err(e) && repository.records == old(repository.records)
              case Ok(b) =>
                match Created(old(repository.records), repository.maxRecords, b)
                case Err(e) => r == Err(e) && repository.records == old(repository.records)
                case Ok(records) => r == Ok(b) && repository.records == records
    {
      var candidate := NewBinding(registry, payload, id, now);
      if candidate.Err? {
        return Err(candidate.error);
      }
      var error := repository.Create(candidate.value);
      if error.Some? {
        return Err(error.value);
      }
      r := Ok(candidate.value);
    }

    // enable, disable and update up to their write: the copy to be written, from the binding as it is now.
    method ReadForChange(id: string, request: Request, userId: Option<string>, now: nat)
      returns (r: Result<Binding, BindingError>)
      requires repository.Valid()
      ensures var read := Authorized(if id in repository.records then Some(repository.records[id]) else None, userId);
              r == if read.Err? then read else ChangedCopy(registry, read.value, request, now)
    {
      var found := repository.Get(id);
      var read := Authorized(found, userId);
      r := if read.Err? then read else ChangedCopy(registry, read.value, request, now);
    }

    method WriteCopy(b: Binding) returns (r: Result<Binding, BindingError>)
      requires repository.Valid()
      modifies repository`records
      ensures repository.Valid()
      ensures match Updated(old(repository.records), b)
              case Err(e) => r == Err(e) && repository.records == old(repository.records)
              case Ok(records) => r == Ok(b) && repository.records == old(repository.records)[b.bindingId := b]
    {
      var error := repository.Update(b);
      r := if error.Some? then Err(error.value) else Ok(b);
    }

    // The whole operation, when nothing runs between the read and the write.
    method ChangeBinding(id: string, request: Request, userId: Option<string>, now: nat)
      returns (r: Result<Binding, BindingError>)
      requires repository.Valid()
      modifies repository`records
      ensures repository.Valid()
      ensures r == Changed(registry, old(repository.records), id, request, userId, now)
      ensures repository.records ==
              if r.Ok? then old(repository.records)[r.value.bindingId := r.value] else old(repository.records)
    {
      var copy := ReadForChange(id, request, userId, now);
      if copy.Err? {
        return copy;
      }
      r := WriteCopy(copy.value);
    }

    method PrepareIntegrationRequest(
      workspaceId: string, providerId: string, capability: string, requestedScopes: Option<seq<string>>)
      returns (r: Result<IntegrationRequest, BindingError>)
      requires repository.Valid()
      ensures var index, slot := ActiveIndex(repository.records), Slot(workspaceId, providerId);
              r == PrepareRequest(registry, if slot in index then Some(repository.records[index[slot]]) else None,
                                  capability, requestedScopes)
    {
      var active := repository.GetByWorkspaceAndProvider(workspaceId, providerId);
      r := PrepareRequest(registry, active, capability, requestedScopes);
    }
  }

  // ---------- every interleaving ----------

  // `pending` holds, for each operation that has read and not yet written, the copy it will write; `origins`
  // remembers what each identifier was first bound for.
  datatype System = System(records: Records, pending: map<nat, Binding>, origins: map<string, Identity>)

  const EMPTY := System(map[], map[], map[])

  datatype Action =
    | Bind(payload: BindPayload, id: string, now: nat)
    | Read(op: nat, id: string, request: Request, userId: Option<string>, now: nat)
    | Write(op: nat)
    | Delete(id: string)

  function Next(registry: Registry, maxRecords: nat, s: System, action: Action): System {
    match action
    case Bind(payload, id, now) =>
      // identifiers are never drawn twice
      if id in s.origins then s
      else
        var candidate := NewBinding(registry, payload, id, now);
        if candidate.Err? then s
        else
          var created := Created(s.records, maxRecords, candidate.value);
          if created.Err? then s
          else s.(records := created.value, origins := s.origins[id := IdentityOf(candidate.value)])
    case Read(op, id, request, userId, now) =>
      var read := Authorized(if id in s.records then Some(s.records[id]) else None, userId);
      if op in s.pending || read.Err? then s
      else
        var copy := ChangedCopy(registry, read.value, request, now);
        if copy.Err? then s else s.(pending := s.pending[op := copy.value])
    case Write(op) =>
      if op !in s.pending then s
      else
        var updated := Updated(s.records, s.pending[op]);
        System(if updated.Ok? then updated.value else s.records, s.pending - {op}, s.origins)
    case Delete(id) => s.(records := s.records - {id})
  }

  function Run(registry: Registry, maxRecords: nat, s: System, actions: seq<Action>): System
    decreases |actions|
  {
    if actions == [] then s
    else Next(registry, maxRecords, Run(registry, maxRecords, s, actions[..|actions| - 1]), actions[|actions| - 1])
  }

  // What one step does to the store: binding adds exactly one record when its payload is acceptable, the slot is free
  // and there is room; a write replaces one by the copy read for it when the slot is free; deleting removes one; and
  // reading changes none.
  lemma StepChangesStore(registry: Registry, maxRecords: nat, s: System, action: Action)
    ensures var records := Next(registry, maxRecords, s, action).records;
            match action
            case Bind(payload, id, now) =>
              var b := NewBinding(registry, payload, id, now);
              records ==
              if id !in s.origins && id !in s.records && |s.records| < maxRecords
                && b.Ok? && SlotIsFree(s.records, b.value) then s.records[id := b.value]
              else s.records
            case Read(_, _, _, _, _) => records == s.records
            case Write(op) =>
              records ==
              if op in s.pending && s.pending[op].bindingId in s.records && SlotIsFree(s.records, s.pending[op]) then
                s.records[s.pending[op].bindingId := s.pending[op]]
              else s.records
            case Delete(id) => records == map other | other in s.records && other != id :: s.records[other]
  {
    match action
    case Bind(payload, id, now) =>
      if NewBinding(registry, payload, id, now).Ok? {
        CreateSucceedsExactly(s.records, maxRecords, NewBinding(registry, payload, id, now).value);
      }
    case Read(_, _, _, _, _) =>
    case Write(op) =>
      if op in s.pending {
        UpdateSucceedsExactly(s.records, s.pending[op]);
      }
    case Delete(_) =>
  }

  // And which copies wait to be written: a reading adds the changed copy of a binding that is there and open to the
  // user, a write takes its own away.
  lemma StepChangesPending(registry: Registry, maxRecords: nat, s: System, action: Action)
    ensures var pending := Next(registry, maxRecords, s, action).pending;
            match action
            case Read(op, id, request, userId, now) =>
              pending ==
              if op !in s.pending && id in s.records && (userId == None || userId.value == s.records[id].userId)
                && ChangedCopy(registry, s.records[id], request, now).Ok? then
                s.pending[op := ChangedCopy(registry, s.records[id], request, now).value]
              else s.pending
            case Write(op) => pending == s.pending - {op}
            case _ => pending == s.pending
  {
  }

  // A binding, stored or about to be written, that the service can answer for.
  predicate IsAccountedFor(registry: Registry, origins: map<string, Identity>, b: Binding) {
    IsSound(registry, b) && b.bindingId in origins && origins[b.bindingId] == IdentityOf(b)
  }

  ghost predicate Inv(registry: Registry, maxRecords: nat, s: System) {
    && IsConsistent(s.records) && |s.records| <= maxRecords
    && (forall id :: id in s.records ==> IsAccountedFor(registry, s.origins, s.records[id]))
    && (forall op :: op in s.pending ==> IsAccountedFor(registry, s.origins, s.pending[op]))
  }

  lemma BindKeepsInv(registry: Registry, maxRecords: nat, s: System, b: Binding)
    requires Inv(registry, maxRecords, s) && b.bindingId !in s.origins && IsSound(registry, b)
    requires Created(s.records, maxRecords, b).Ok?
    ensures Inv(registry, maxRecords, s.(records := Created(s.records, maxRecords, b).value,
                                         origins := s.origins[b.bindingId := IdentityOf(b)]))
  {
    CreateKeepsConsistent(s.records, maxRecords, b);
  }

  lemma ReadKeepsInv(registry: Registry, maxRecords: nat, s: System, op: nat, id: string, request: Request, now: nat)
    requires Inv(registry, maxRecords, s) && id in s.records
    requires ChangedCopy(registry, s.records[id], request, now).Ok?
    ensures Inv(registry, maxRecords,
                s.(pending := s.pending[op := ChangedCopy(registry, s.records[id], request, now).value]))
  {
    assert IsAccountedFor(registry, s.origins, s.records[id]);
    ChangedCopyIsSound(registry, s.records[id], request, now);
  }

  lemma WriteKeepsInv(registry: Registry, maxRecords: nat, s: System, op: nat)
    requires Inv(registry, maxRecords, s) && op in s.pending && Updated(s.records, s.pending[op]).Ok?
    ensures Inv(registry, maxRecords, System(Updated(s.records, s.pending[op]).value, s.pending - {op}, s.origins))
  {
    UpdateKeepsConsistent(s.records, s.pending[op]);
  }

  lemma DeleteKeepsInv(registry: Registry, maxRecords: nat, s: System, id: string)
    requires Inv(registry, maxRecords, s)
    ensures Inv(registry, maxRecords, s.(records := s.records - {id}))
  {
    DeleteKeepsConsistent(s.records, id);
  }

  lemma AnyBindKeepsInv(registry: Registry, maxRecords: nat, s: System, payload: BindPayload, id: string, now: nat)
    requires Inv(registry, maxRecords, s)
    ensures Inv(registry, maxRecords, Next(registry, maxRecords, s, Bind(payload, id, now)))
  {
    var candidate := NewBinding(registry, payload, id, now);
    if id !in s.origins && candidate.Ok? && Created(s.records, maxRecords, candidate.value).Ok? {
      NewBindingIsSound(registry, payload, id, now);
      BindKeepsInv(registry, maxRecords, s, candidate.value);
    }
  }

  lemma AnyWriteKeepsInv(registry: Registry, maxRecords: nat, s: System, op: nat)
    requires Inv(registry, maxRecords, s)
    ensures Inv(registry, maxRecords, Next(registry, maxRecords, s, Write(op)))
  {
    if op in s.pending && Updated(s.records, s.pending[op]).Ok? {
      WriteKeepsInv(registry, maxRecords, s, op);
    }
  }

  lemma NextKeepsInv(registry: Registry, maxRecords: nat, s: System, action: Action)
    requires Inv(registry, maxRecords, s)
    ensures Inv(registry, maxRecords, Next(registry, maxRecords, s, action))
  {
    match action
    case Bind(payload, id, now) => AnyBindKeepsInv(registry, maxRecords, s, payload, id, now);
    case Read(op, id, request, userId, now) =>
      if op !in s.pending && id in s.records && Authorized(Some(s.records[id]), userId).Ok?
        && ChangedCopy(registry, s.records[id], request, now).Ok? {
        ReadKeepsInv(registry, maxRecords, s, op, id, request, now);
      }
    case Write(op) => AnyWriteKeepsInv(registry, maxRecords, s, op);
    case Delete(id) => DeleteKeepsInv(registry, maxRecords, s, id);
  }

  // The invariant survives stale reads: it holds after every sequence of reads, writes, binds and deletes.
  lemma {:induction false} EveryInterleavingKeepsInv(registry: Registry, maxRecords: nat, actions: seq<Action>)
    ensures Inv(registry, maxRecords, Run(registry, maxRecords, EMPTY, actions))
    decreases |actions|
  {
    if actions != [] {
      EveryInterleavingKeepsInv(registry, maxRecords, actions[..|actions| - 1]);
      NextKeepsInv(registry, maxRecords, Run(registry, maxRecords, EMPTY, actions[..|actions| - 1]),
                   actions[|actions| - 1]);
    }
  }

  lemma {:induction false} OriginsPersist(
    registry: Registry, maxRecords: nat, s: System, actions: seq<Action>, id: string)
    requires id in s.origins
    ensures id in Run(registry, maxRecords, s, actions).origins
    ensures Run(registry, maxRecords, s, actions).origins[id] == s.origins[id]
    decreases |actions|
  {
    if actions != [] {
      OriginsPersist(registry, maxRecords, s, actions[..|actions| - 1], id);
    }
  }

  lemma {:induction false} RunConcat(registry: Registry, maxRecords: nat, s: System, a: seq<Action>, b: seq<Action>)
    ensures Run(registry, maxRecords, s, a + b) == Run(registry, maxRecords, Run(registry, maxRecords, s, a), b)
    decreases |b|
  {
    if b == [] {
      assert a + b == a;
    } else {
      assert (a + b)[..|a + b| - 1] == a + b[..|b| - 1];
      RunConcat(registry, maxRecords, s, a, b[..|b| - 1]);
    }
  }

  // A binding's workspace, user and provider are the same whenever it is stored.
  lemma IdentityNeverChanges(registry: Registry, maxRecords: nat, before: seq<Action>, more: seq<Action>, id: string)
    requires id in Run(registry, maxRecords, EMPTY, before).records
    requires id in Run(registry, maxRecords, EMPTY, before + more).records
    ensures IdentityOf(Run(registry, maxRecords, EMPTY, before + more).records[id]) ==
            IdentityOf(Run(registry, maxRecords, EMPTY, before).records[id])
  {
    var s, s' := Run(registry, maxRecords, EMPTY, before), Run(registry, maxRecords, EMPTY, before + more);
    EveryInterleavingKeepsInv(registry, maxRecords, before);
    EveryInterleavingKeepsInv(registry, maxRecords, before + more);
    RunConcat(registry, maxRecords, EMPTY, before, more);
    OriginsPersist(registry, maxRecords, s, more, id);
    assert IsAccountedFor(registry, s.origins, s.records[id]) && IsAccountedFor(registry, s'.origins, s'.records[id]);
  }

  // Whatever was interleaved before, a request for a workspace and provider is prepared exactly when some stored
  // binding of theirs may send it, and then carries that binding's user and credential and scopes it has granted.
  lemma PreparedExactly(
    registry: Registry, maxRecords: nat, actions: seq<Action>, slot: Slot, capability: string,
    requestedScopes: Option<seq<string>>)
    ensures IsConsistent(Run(registry, maxRecords, EMPTY, actions).records)
    ensures var records := Run(registry, maxRecords, EMPTY, actions).records;
            var index := ActiveIndex(records);
            var prepared := PrepareRequest(
              registry, if slot in index then Some(records[index[slot]]) else None, capability, requestedScopes);
            && (prepared.Ok? <==>
                  exists id ::
                    && id in records && SlotOf(records[id]) == slot
                    && MaySend(registry, records[id], capability, ScopesAsked(records[id], requestedScopes)))
            && (prepared.Ok? ==>
                  exists id ::
                    && id in records && SlotOf(records[id]) == slot
                    && MaySend(registry, records[id], capability, prepared.value.requestedScopes)
                    && prepared.value.userId == records[id].userId
                    && prepared.value.credential == records[id].credential)
  {
    EveryInterleavingKeepsInv(registry, maxRecords, actions);
    var records := Run(registry, maxRecords, EMPTY, actions).records;
    var index := ActiveIndex(records);
    if slot in index {
      assert IsActiveFor(records, slot, index[slot]);
      PrepareSucceedsExactly(registry, Some(records[index[slot]]), capability, requestedScopes);
    }
    forall id | id in records && SlotOf(records[id]) == slot && records[id].status == Active
      ensures slot in index && index[slot] == id
    {
      assert IsActiveFor(records, slot, id);
    }
  }

  // Whatever was interleaved before, a request prepared with default scopes passes every check the provider makes.
  lemma PreparedRequestsPass(
    registry: Registry, maxRecords: nat, actions: seq<Action>, workspaceId: string, providerId: string,
    capability: string)
    requires registry.Some? && WellFormed(registry)
    ensures IsConsistent(Run(registry, maxRecords, EMPTY, actions).records)
    ensures var records := Run(registry, maxRecords, EMPTY, actions).records;
            var index, slot := ActiveIndex(records), Slot(workspaceId, providerId);
            var prepared := PrepareRequest(registry,
              if slot in index then Some(records[index[slot]]) else None,
              capability, None);
            prepared.Ok? ==>
              providerId in registry.value
              && ValidateProviderRequest(registry.value[providerId], prepared.value, true).None?
  {
    var s := Run(registry, maxRecords, EMPTY, actions);
    EveryInterleavingKeepsInv(registry, maxRecords, actions);
    var index, slot := ActiveIndex(s.records), Slot(workspaceId, providerId);
    if slot in index {
      var b := s.records[index[slot]];
      assert IsActiveFor(s.records, slot, index[slot]) && b.providerId == providerId;
      assert IsAccountedFor(registry, s.origins, b);
      if PrepareRequest(registry, Some(b), capability, None).Ok? {
        PreparedRequestPassesExactly(registry, b, capability, None);
      }
    }
  }

  // ---------- writes on stale reads ----------

  // The two bindings agree on everything the request leaves as it is.
  predicate AgreeOnKept(request: Request, a: Binding, b: Binding) {
    match request
    case Amend(p) =>
      && (p.status.None? ==> a.status == b.status)
      && (p.credential.None? ==> a.credential == b.credential)
      && (p.grantedScopes.None? ==> a.grantedScopes == b.grantedScopes)
    case _ => a.credential == b.credential && a.grantedScopes == b.grantedScopes
  }

  // A copy made from an earlier reading is the one a fresh reading would give exactly when nothing it keeps changed.
  lemma StaleCopyExactly(registry: Registry, read: Binding, current: Binding, request: Request, now: nat)
    requires read.bindingId == current.bindingId && IdentityOf(read) == IdentityOf(current)
    requires ChangedCopy(registry, read, request, now).Ok?
    ensures (ChangedCopy(registry, current, request, now) == ChangedCopy(registry, read, request, now))
            <==> AgreeOnKept(request, read, current)
  {
  }

  // This action overwrites or removes the record of the binding.
  predicate Touches(s: System, action: Action, id: string) {
    || (action.Write? && action.op in s.pending && s.pending[action.op].bindingId == id)
    || action == Delete(id)
  }

  predicate Untouched(registry: Registry, maxRecords: nat, s: System, actions: seq<Action>, id: string) {
    forall i :: 0 <= i < |actions| ==> !Touches(Run(registry, maxRecords, s, actions[..i]), actions[i], id)
  }

  lemma NextUntouched(registry: Registry, maxRecords: nat, s: System, action: Action, id: string)
    requires id in s.records && id in s.origins && !Touches(s, action, id)
    ensures var s' := Next(registry, maxRecords, s, action); id in s'.records && s'.records[id] == s.records[id]
  {
  }

  lemma UntouchedFront(registry: Registry, maxRecords: nat, s: System, actions: seq<Action>, id: string)
    requires actions != [] && Untouched(registry, maxRecords, s, actions, id)
    ensures var front := actions[..|actions| - 1];
            && Untouched(registry, maxRecords, s, front, id)
            && !Touches(Run(registry, maxRecords, s, front), actions[|actions| - 1], id)
  {
    var front := actions[..|actions| - 1];
    forall i | 0 <= i < |front| ensures !Touches(Run(registry, maxRecords, s, front[..i]), front[i], id) {
      assert front[..i] == actions[..i];
    }
  }

  lemma {:induction false} UntouchedStays(
    registry: Registry, maxRecords: nat, s: System, actions: seq<Action>, id: string)
    requires id in s.records && id in s.origins && Untouched(registry, maxRecords, s, actions, id)
    ensures id in Run(registry, maxRecords, s, actions).records
    ensures Run(registry, maxRecords, s, actions).records[id] == s.records[id]
    decreases |actions|
  {
    if actions != [] {
      var front := actions[..|actions| - 1];
      UntouchedFront(registry, maxRecords, s, actions, id);
      UntouchedStays(registry, maxRecords, s, front, id);
      OriginsPersist(registry, maxRecords, s, front, id);
      NextUntouched(registry, maxRecords, Run(registry, maxRecords, s, front), actions[|actions| - 1], id);
    }
  }

  lemma {:induction false} PendingStays(registry: Registry, maxRecords: nat, s: System, actions: seq<Action>, op: nat)
    requires op in s.pending && forall i :: 0 <= i < |actions| ==> actions[i] != Write(op)
    ensures op in Run(registry, maxRecords, s, actions).pending
    ensures Run(registry, maxRecords, s, actions).pending[op] == s.pending[op]
    decreases |actions|
  {
    if actions != [] {
      PendingStays(registry, maxRecords, s, actions[..|actions| - 1], op);
    }
  }

  // This reading is let through: its copy waits to be written.
  predicate ReadsFor(registry: Registry, s: System, action: Action) {
    && action.Read? && action.op !in s.pending && action.id in s.records
    && Authorized(Some(s.records[action.id]), action.userId).Ok?
    && ChangedCopy(registry, s.records[action.id], action.request, action.now).Ok?
  }

  lemma ReadPends(registry: Registry, maxRecords: nat, s: System, read: Action)
    requires ReadsFor(registry, s, read)
    ensures var s' := Next(registry, maxRecords, s, read);
            && read.op in s'.pending && s'.records == s.records && s'.origins == s.origins
            && s'.pending[read.op] == ChangedCopy(registry, s.records[read.id], read.request, read.now).value
  {
  }

  lemma RunSnoc(registry: Registry, maxRecords: nat, s: System, actions: seq<Action>, action: Action)
    ensures Run(registry, maxRecords, s, actions + [action])
         == Next(registry, maxRecords, Run(registry, maxRecords, s, actions), action)
  {
    assert (actions + [action])[..|actions|] == actions;
  }

  // Between its reading and its write an operation's copy stays what its own reading gave.
  lemma CopyOfReading(registry: Registry, maxRecords: nat, before: seq<Action>, read: Action, between: seq<Action>)
    requires ReadsFor(registry, Run(registry, maxRecords, EMPTY, before), read)
    requires forall i :: 0 <= i < |between| ==> between[i] != Write(read.op)
    ensures var s0 := Run(registry, maxRecords, EMPTY, before);
            var s := Run(registry, maxRecords, EMPTY, before + [read] + between);
            && read.op in s.pending
            && s.pending[read.op] == ChangedCopy(registry, s0.records[read.id], read.request, read.now).value
  {
    var s0 := Run(registry, maxRecords, EMPTY, before);
    ReadPends(registry, maxRecords, s0, read);
    RunSnoc(registry, maxRecords, EMPTY, before, read);
    RunConcat(registry, maxRecords, EMPTY, before + [read], between);
    PendingStays(registry, maxRecords, Next(registry, maxRecords, s0, read), between, read.op);
  }

  // A change is lost exactly here: an operation that read before other writes stores, when its own write is
  // accepted, the copy made from its reading, which is what a fresh reading would have given exactly when the binding
  // as read and the binding as overwritten agree on everything the operation keeps.
  lemma StaleWriteExactly(registry: Registry, maxRecords: nat, before: seq<Action>, read: Action, between: seq<Action>)
    requires ReadsFor(registry, Run(registry, maxRecords, EMPTY, before), read)
    requires forall i :: 0 <= i < |between| ==> between[i] != Write(read.op)
    requires var s0 := Run(registry, maxRecords, EMPTY, before);
             var s := Run(registry, maxRecords, EMPTY, before + [read] + between);
             var copy := ChangedCopy(registry, s0.records[read.id], read.request, read.now).value;
             read.id in s.records && Updated(s.records, copy).Ok?
    ensures var s0 := Run(registry, maxRecords, EMPTY, before);
            var s := Run(registry, maxRecords, EMPTY, before + [read] + between);
            var stored := Next(registry, maxRecords, s, Write(read.op)).records;
            var anew := ChangedCopy(registry, s.records[read.id], read.request, read.now);
            && read.id in stored
            && Ok(stored[read.id]) == ChangedCopy(registry, s0.records[read.id], read.request, read.now)
            && (Ok(stored[read.id]) == anew <==> AgreeOnKept(read.request, s0.records[read.id], s.records[read.id]))
  {
    var s0 := Run(registry, maxRecords, EMPTY, before);
    var s := Run(registry, maxRecords, EMPTY, before + [read] + between);
    assert before + ([read] + between) == before + [read] + between;
    CopyOfReading(registry, maxRecords, before, read, between);
    IdentityNeverChanges(registry, maxRecords, before, [read] + between, read.id);
    EveryInterleavingKeepsInv(registry, maxRecords, before);
    EveryInterleavingKeepsInv(registry, maxRecords, before + [read] + between);
    assert s0.records[read.id].bindingId == read.id == s.records[read.id].bindingId;
    ChangedCopyIsSound(registry, s0.records[read.id], read.request, read.now);
    StaleCopyExactly(registry, s0.records[read.id], s.records[read.id], read.request, read.now);
  }

  // No change is lost while nobody else writes or deletes the binding.
  lemma NothingLostUntouched(
    registry: Registry, maxRecords: nat, before: seq<Action>, read: Action, between: seq<Action>)
    requires ReadsFor(registry, Run(registry, maxRecords, EMPTY, before), read)
    requires Untouched(registry, maxRecords, Run(registry, maxRecords, EMPTY, before + [read]), between, read.id)
    ensures var s0 := Run(registry, maxRecords, EMPTY, before);
            var s := Run(registry, maxRecords, EMPTY, before + [read] + between);
            read.id in s.records && AgreeOnKept(read.request, s0.records[read.id], s.records[read.id])
  {
    EveryInterleavingKeepsInv(registry, maxRecords, before);
    var s0 := Run(registry, maxRecords, EMPTY, before);
    assert IsAccountedFor(registry, s0.origins, s0.records[read.id]);
    ReadPends(registry, maxRecords, s0, read);
    RunSnoc(registry, maxRecords, EMPTY, before, read);
    RunConcat(registry, maxRecords, EMPTY, before + [read], between);
    UntouchedStays(registry, maxRecords, Next(registry, maxRecords, s0, read), between, read.id);
  }

  const NO_CHANGE := UpdatePayload(None, None, None)

  // Two requests read the same binding: one will write it back unchanged, the other disabled.
  lemma BothCopiesPend(registry: Registry, maxRecords: nat, s: System, id: string, first: nat, second: nat, now: nat)
    requires id in s.records && first != second && first !in s.pending && second !in s.pending
    ensures var s1 := Next(registry, maxRecords, s, Read(first, id, Amend(NO_CHANGE), None, now));
            Next(registry, maxRecords, s1, Read(second, id, Disable, None, now))
            == s.(pending := s.pending[first := s.records[id]][second := s.records[id].(status := Disabled)])
  {
    assert ChangedCopy(registry, s.records[id], Amend(NO_CHANGE), now) == Ok(s.records[id]);
  }

  lemma DisablingIsAccepted(registry: Registry, maxRecords: nat, s: System, id: string, op: nat)
    requires id in s.records && s.records[id].bindingId == id
    requires op in s.pending && s.pending[op] == s.records[id].(status := Disabled)
    ensures var s' := Next(registry, maxRecords, s, Write(op));
            s'.records == s.records[id := s.pending[op]] && s'.pending == s.pending - {op}
  {
  }

  // An active binding may be written back over its disabled form.
  lemma RevivingIsAccepted(records: map<string, Binding>, id: string)
    requires IsConsistent(records) && id in records && records[id].status.Active?
    ensures Updated(records[id := records[id].(status := Disabled)], records[id]) == Ok(records)
  {
    var b := records[id];
    var disabled := records[id := b.(status := Disabled)];
    forall other | other in records && other != id ensures !BothActive(records[other], b) {
    }
    assert !SlotIsTaken(disabled, b);
    assert disabled[id := b] == records;
  }

  // An active binding that one request disables is active again once another request, which had read it before and
  // changes nothing, has written its copy.
  lemma StaleUpdateRevives(
    registry: Registry, maxRecords: nat, s: System, id: string, first: nat, second: nat, now: nat)
    requires Inv(registry, maxRecords, s) && id in s.records && s.records[id].status.Active?
    requires first != second && first !in s.pending && second !in s.pending
    ensures var s1 := Next(registry, maxRecords, s, Read(first, id, Amend(NO_CHANGE), None, now));
            var s2 := Next(registry, maxRecords, s1, Read(second, id, Disable, None, now));
            var s3 := Next(registry, maxRecords, s2, Write(second));
            var s4 := Next(registry, maxRecords, s3, Write(first));
            && id in s3.records && s3.records[id].status.Disabled?
            && id in s4.records && s4.records[id] == s.records[id]
  {
    var disabled := s.records[id].(status := Disabled);
    var s2 := s.(pending := s.pending[first := s.records[id]][second := disabled]);
    BothCopiesPend(registry, maxRecords, s, id, first, second, now);
    DisablingIsAccepted(registry, maxRecords, s2, id, second);
    RevivingIsAccepted(s.records, id);
  }
}
