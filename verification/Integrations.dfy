/** Provider-neutral integration contracts: credentials, requests and the checks a provider makes of a request. */
module Integrations {
  import opened Outcomes

  datatype IntegrationStatus = Available | Degraded | ProviderDisabled | Unavailable

  datatype CredentialStatus =
    | CredentialPending | CredentialActive | CredentialExpired | CredentialRevoked
    | CredentialDisabled | CredentialError

  datatype Ownership = Ownership(userId: Option<string>, workspaceId: Option<string>)

  datatype Credential = Credential(
    providerId: string, status: CredentialStatus, ownership: Option<Ownership>, expiresAt: Option<nat>)

  datatype Provider = Provider(
    providerId: string, status: IntegrationStatus, requiredScopes: set<string>, capabilities: set<string>)

  datatype IntegrationRequest = IntegrationRequest(
    userId: string, workspaceId: string, providerId: string, capability: string,
    requestedScopes: seq<string>, credential: Option<Credential>)

  datatype RequestError =
    | ProviderMismatch | ProviderUnavailable | CapabilityUnsupported | CredentialMismatch
    | ScopesMissing | OwnershipMismatch

  predicate Blocked(provider: Provider) { provider.status.ProviderDisabled? || provider.status.Unavailable? }

  predicate Covers(scopes: seq<string>, required: set<string>) {
    forall s :: s in required ==> s in scopes
  }

  // A named owner is the given user or workspace; an ownership that names neither fits anyone.
  predicate Owns(ownership: Ownership, userId: string, workspaceId: string) {
    && (ownership.userId.Some? ==> ownership.userId.value == userId)
    && (ownership.workspaceId.Some? ==> ownership.workspaceId.value == workspaceId)
  }

  // ensure_credential_usable
  predicate IsUsableCredential(credential: Credential, now: nat) {
    credential.status.CredentialActive? && (credential.expiresAt.Some? ==> now < credential.expiresAt.value)
  }

  // validate_provider_request; `supported` is the provider's own answer about the capability.
  function ValidateProviderRequest(provider: Provider, request: IntegrationRequest, supported: bool)
    : Option<RequestError>
  {
    if request.providerId != provider.providerId then Some(ProviderMismatch)
    else if Blocked(provider) then Some(ProviderUnavailable)
    else if !supported then Some(CapabilityUnsupported)
    else if request.credential.Some? && request.credential.value.providerId != provider.providerId then
      Some(CredentialMismatch)
    else if !Covers(request.requestedScopes, provider.requiredScopes) then Some(ScopesMissing)
    else if request.credential.Some? && request.credential.value.ownership.Some?
      && !Owns(request.credential.value.ownership.value, request.userId, request.workspaceId) then
      Some(OwnershipMismatch)
    else None
  }

  // A request passes a provider's checks, in this order: it is for this provider, which is neither disabled nor
  // unavailable and supports the capability; its credential, if any, is this provider's; its scopes include the
  // required ones; and its credential's owners, where named, are the requesting user and workspace.
  lemma RequestPassesExactly(provider: Provider, request: IntegrationRequest, supported: bool)
    ensures ValidateProviderRequest(provider, request, supported) ==
            if request.providerId != provider.providerId then Some(ProviderMismatch)
            else if provider.status in {ProviderDisabled, Unavailable} then Some(ProviderUnavailable)
            else if !supported then Some(CapabilityUnsupported)
            else if exists c :: request.credential == Some(c) && c.providerId != provider.providerId then
              Some(CredentialMismatch)
            else if exists scope :: scope in provider.requiredScopes && scope !in request.requestedScopes then
              Some(ScopesMissing)
            else if exists c, o ::
                && request.credential == Some(c) && c.ownership == Some(o)
                && ((exists user :: o.userId == Some(user) && user != request.userId)
                    || exists workspace :: o.workspaceId == Some(workspace) && workspace != request.workspaceId) then
              Some(OwnershipMismatch)
            else None
  {
    if request.credential.Some? && request.credential.value.ownership.Some? {
      var c := request.credential.value;
      var o := c.ownership.value;
      assert request.credential == Some(c) && c.ownership == Some(o);
      if o.userId.Some? {
        assert o.userId == Some(o.userId.value);
      }
      if o.workspaceId.Some? {
        assert o.workspaceId == Some(o.workspaceId.value);
      }
    }
  }
}
