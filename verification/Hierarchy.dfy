/** What admission and authorization share of the resource hierarchy. */
module Hierarchy {
  const MAX_BINDINGS := 128

  datatype Kind = Workspace | Environment | Application | Component | ProviderConnection | Policy

  datatype ScopeKind = WorkspaceScope | EnvironmentScope
}
