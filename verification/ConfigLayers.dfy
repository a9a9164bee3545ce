/** Layered configuration (crates/agentos-config/src/lib.rs): the patches of a profile chain
    applied one after the other to the document's base configuration. */
module ConfigLayers {
  import opened Wrappers
  import opened Profiles

  // ---------------------------------------------------------------- configurations and patches

  datatype KernelConfig = KernelConfig(profile: Option<string>)

  datatype StorageConfig = StorageConfig(root: string)

  datatype ModelProviderConfig = ModelProviderConfig(
    provider: string, endpoint: string, apiKey: Option<string>, model: string, timeoutSecs: Option<nat>)

  datatype ModelConfig = ModelConfig(
    defaultProvider: string, defaultModel: string, providers: map<string, ModelProviderConfig>)

  datatype PolicyConfig = PolicyConfig(mode: string)

  datatype ActionPolicyConfig = ActionPolicyConfig(mode: string)

  datatype ActionRuntimeConfig = ActionRuntimeConfig(
    defaultPolicyMode: string, perAction: map<string, ActionPolicyConfig>)

  datatype IdentityConfig = IdentityConfig(mode: string, cryptoProvider: string)

  datatype BrowserConfig = BrowserConfig(profile: Option<string>, profilePolicy: string, allowJs: bool)

  datatype ConnectorRuntimeConfig = ConnectorRuntimeConfig(
    isolation: string, rateLimitPerMinute: Option<nat>, healthCheckIntervalSecs: Option<nat>)

  datatype ConnectorConfig = ConnectorConfig(
    enabled: bool, endpoint: Option<string>, token: Option<string>, runtime: ConnectorRuntimeConfig)

  const DEFAULT_PROVIDER := ModelProviderConfig("", "", None, "", None)
  const DEFAULT_ACTION_POLICY := ActionPolicyConfig("ask")
  const DEFAULT_CONNECTOR := ConnectorConfig(false, None, None, ConnectorRuntimeConfig("shared", None, None))

  /** A whole configuration, as a value. */
  datatype Config = Config(
    kernel: KernelConfig,
    storage: StorageConfig,
    model: ModelConfig,
    policy: PolicyConfig,
    actions: ActionRuntimeConfig,
    identity: IdentityConfig,
    browser: BrowserConfig,
    connectors: map<string, ConnectorConfig>)

  datatype KernelConfigPatch = KernelConfigPatch(profile: Option<string>)

  datatype StorageConfigPatch = StorageConfigPatch(root: Option<string>)

  datatype ModelProviderConfigPatch = ModelProviderConfigPatch(
    provider: Option<string>, endpoint: Option<string>, apiKey: Option<string>, model: Option<string>,
    timeoutSecs: Option<nat>)

  datatype ModelConfigPatch = ModelConfigPatch(
    defaultProvider: Option<string>, defaultModel: Option<string>, providers: map<string, ModelProviderConfigPatch>)

  datatype PolicyConfigPatch = PolicyConfigPatch(mode: Option<string>)

  datatype ActionPolicyConfigPatch = ActionPolicyConfigPatch(mode: Option<string>)

  datatype ActionRuntimeConfigPatch = ActionRuntimeConfigPatch(
    defaultPolicyMode: Option<string>, perAction: map<string, ActionPolicyConfigPatch>)

  datatype IdentityConfigPatch = IdentityConfigPatch(mode: Option<string>, cryptoProvider: Option<string>)

  datatype BrowserConfigPatch = BrowserConfigPatch(profile: Option<string>, profilePolicy: Option<string>,
    allowJs: Option<bool>)

  datatype ConnectorRuntimeConfigPatch = ConnectorRuntimeConfigPatch(
    isolation: Option<string>, rateLimitPerMinute: Option<nat>, healthCheckIntervalSecs: Option<nat>)

  datatype ConnectorConfigPatch = ConnectorConfigPatch(
    enabled: Option<bool>, endpoint: Option<string>, token: Option<string>,
    runtime: Option<ConnectorRuntimeConfigPatch>)

  datatype AgentOsProfile = AgentOsProfile(
    parent: Option<string>,
    kernel: Option<KernelConfigPatch>,
    storage: Option<StorageConfigPatch>,
    model: Option<ModelConfigPatch>,
    policy: Option<PolicyConfigPatch>,
    actions: Option<ActionRuntimeConfigPatch>,
    identity: Option<IdentityConfigPatch>,
    browser: Option<BrowserConfigPatch>,
    connectors: map<string, ConnectorConfigPatch>)

  // ---------------------------------------------------------------- applying one patch

  /** A field that a patch may replace, */
  function Or<T>(patch: Option<T>, value: T): T {
    if patch.Some? then patch.value else value
  }

  /** and one that is itself optional: a patch can set it, never clear it. */
  function OrKeep<T>(patch: Option<T>, value: Option<T>): Option<T> {
    if patch.Some? then patch else value
  }

  function PatchProvider(patch: ModelProviderConfigPatch, c: ModelProviderConfig): ModelProviderConfig {
    ModelProviderConfig(
      Or(patch.provider, c.provider), Or(patch.endpoint, c.endpoint), OrKeep(patch.apiKey, c.apiKey),
      Or(patch.model, c.model), OrKeep(patch.timeoutSecs, c.timeoutSecs))
  }

  function PatchActionPolicy(patch: ActionPolicyConfigPatch, c: ActionPolicyConfig): ActionPolicyConfig {
    ActionPolicyConfig(Or(patch.mode, c.mode))
  }

  function PatchConnectorRuntime(patch: ConnectorRuntimeConfigPatch, c: ConnectorRuntimeConfig)
    : ConnectorRuntimeConfig
  {
    ConnectorRuntimeConfig(
      Or(patch.isolation, c.isolation),
      OrKeep(patch.rateLimitPerMinute, c.rateLimitPerMinute),
      OrKeep(patch.healthCheckIntervalSecs, c.healthCheckIntervalSecs))
  }

  function PatchConnector(patch: ConnectorConfigPatch, c: ConnectorConfig): ConnectorConfig {
    ConnectorConfig(
      Or(patch.enabled, c.enabled), OrKeep(patch.endpoint, c.endpoint), OrKeep(patch.token, c.token),
      if patch.runtime.Some? then PatchConnectorRuntime(patch.runtime.value, c.runtime) else c.runtime)
  }

  /** The entry of a map, or the default an absent one starts from. */
  function EntryOr<C>(entries: map<string, C>, key: string, initial: C): C {
    if key in entries then entries[key] else initial
  }

  /** Every patched key is patched from its entry or the default; other entries stay. */
  function MergeEntries<P, C>(apply: (P, C) -> C, initial: C, patches: map<string, P>, entries: map<string, C>)
    : map<string, C>
  {
    map key | key in patches.Keys + entries.Keys ::
      if key in patches then apply(patches[key], EntryOr(entries, key, initial)) else entries[key]
  }

  /** The map when the keys `done` have been patched. */
  ghost predicate MergedSoFar<P, C>(apply: (P, C) -> C, initial: C, patches: map<string, P>, entries: map<string, C>,
                                    done: set<string>, merged: map<string, C>)
    requires done <= patches.Keys
  {
    && merged.Keys == entries.Keys + done
    && (forall key | key in done && key in merged :: merged[key] == apply(patches[key], EntryOr(entries, key, initial)))
    && (forall key | key in entries && key !in done && key in merged :: merged[key] == entries[key])
  }

  lemma MergeNext<P, C>(apply: (P, C) -> C, initial: C, patches: map<string, P>, entries: map<string, C>,
                        done: set<string>, merged: map<string, C>, key: string)
    requires done <= patches.Keys && key in patches && key !in done
    requires MergedSoFar(apply, initial, patches, entries, done, merged)
    ensures MergedSoFar(apply, initial, patches, entries, done + {key},
                        merged[key := apply(patches[key], EntryOr(merged, key, initial))])
  {
    assert key in merged <==> key in entries;
    assert EntryOr(merged, key, initial) == EntryOr(entries, key, initial);
  }

  lemma MergeDone<P, C>(apply: (P, C) -> C, initial: C, patches: map<string, P>, entries: map<string, C>,
                        merged: map<string, C>)
    requires MergedSoFar(apply, initial, patches, entries, patches.Keys, merged)
    ensures merged == MergeEntries(apply, initial, patches, entries)
  {
    var spec := MergeEntries(apply, initial, patches, entries);
    assert merged.Keys == spec.Keys;
    forall key | key in merged
      ensures merged[key] == spec[key]
    {
    }
  }

  /** The loop over a patch map: `entry(key).or_default()`, then `apply_to`, in any key order. */
  method ApplyEntries<P, C>(apply: (P, C) -> C, initial: C, patches: map<string, P>, entries: map<string, C>)
    returns (merged: map<string, C>)
    ensures merged == MergeEntries(apply, initial, patches, entries)
  {
    hide MergeEntries, MergedSoFar;
    merged := entries;
    var rest := patches.Keys;
    ghost var done: set<string> := {};
    NothingMerged(apply, initial, patches, entries);
    while rest != {}
      invariant done !! rest && done + rest == patches.Keys
      invariant MergedSoFar(apply, initial, patches, entries, done, merged)
      decreases |rest|
    {
      var key :| key in rest;
      MergeNext(apply, initial, patches, entries, done, merged, key);
      var entry := EntryOr(merged, key, initial);
      merged := merged[key := apply(patches[key], entry)];
      rest := rest - {key};
      done := done + {key};
    }
    assert done == patches.Keys;
    MergeDone(apply, initial, patches, entries, merged);
  }

  lemma NothingMerged<P, C>(apply: (P, C) -> C, initial: C, patches: map<string, P>, entries: map<string, C>)
    ensures MergedSoFar(apply, initial, patches, entries, {}, entries)
  {
  }

  function PatchKernel(patch: Option<KernelConfigPatch>, c: KernelConfig): KernelConfig {
    if patch.Some? then KernelConfig(OrKeep(patch.value.profile, c.profile)) else c
  }

  function PatchStorage(patch: Option<StorageConfigPatch>, c: StorageConfig): StorageConfig {
    if patch.Some? then StorageConfig(Or(patch.value.root, c.root)) else c
  }

  function PatchModel(patch: Option<ModelConfigPatch>, c: ModelConfig): ModelConfig {
    if patch.None? then c
    else
      ModelConfig(
        Or(patch.value.defaultProvider, c.defaultProvider), Or(patch.value.defaultModel, c.defaultModel),
        MergeEntries(PatchProvider, DEFAULT_PROVIDER, patch.value.providers, c.providers))
  }

  function PatchPolicy(patch: Option<PolicyConfigPatch>, c: PolicyConfig): PolicyConfig {
    if patch.Some? then PolicyConfig(Or(patch.value.mode, c.mode)) else c
  }

  function PatchActions(patch: Option<ActionRuntimeConfigPatch>, c: ActionRuntimeConfig): ActionRuntimeConfig {
    if patch.None? then c
    else
      ActionRuntimeConfig(
        Or(patch.value.defaultPolicyMode, c.defaultPolicyMode),
        MergeEntries(PatchActionPolicy, DEFAULT_ACTION_POLICY, patch.value.perAction, c.perAction))
  }

  function PatchIdentity(patch: Option<IdentityConfigPatch>, c: IdentityConfig): IdentityConfig {
    if patch.None? then c
    else IdentityConfig(Or(patch.value.mode, c.mode), Or(patch.value.cryptoProvider, c.cryptoProvider))
  }

  function PatchBrowser(patch: Option<BrowserConfigPatch>, c: BrowserConfig): BrowserConfig {
    if patch.None? then c
    else
      BrowserConfig(
        OrKeep(patch.value.profile, c.profile),
        Or(patch.value.profilePolicy, c.profilePolicy),
        Or(patch.value.allowJs, c.allowJs))
  }

  /** One profile applied to a configuration. */
  function Applied(p: AgentOsProfile, c: Config): Config {
    Config(
      PatchKernel(p.kernel, c.kernel),
      PatchStorage(p.storage, c.storage),
      PatchModel(p.model, c.model),
      PatchPolicy(p.policy, c.policy),
      PatchActions(p.actions, c.actions),
      PatchIdentity(p.identity, c.identity),
      PatchBrowser(p.browser, c.browser),
      MergeEntries(PatchConnector, DEFAULT_CONNECTOR, p.connectors, c.connectors))
  }

  /** A chain of profiles, applied in order. */
  function Layered(base: Config, chain: seq<AgentOsProfile>): Config {
    if chain == [] then base else Applied(chain[|chain| - 1], Layered(base, chain[..|chain| - 1]))
  }

  // ---------------------------------------------------------------- in place

  class AgentOsConfig {
    var kernel: KernelConfig
    var storage: StorageConfig
    var model: ModelConfig
    var policy: PolicyConfig
    var actions: ActionRuntimeConfig
    var identity: IdentityConfig
    var browser: BrowserConfig
    var connectors: map<string, ConnectorConfig>

    function Contents(): Config
      reads this
    {
      Config(kernel, storage, model, policy, actions, identity, browser, connectors)
    }

    constructor Clone(c: Config)
      ensures Contents() == c
    {
      kernel, storage, model, policy := c.kernel, c.storage, c.model, c.policy;
      actions, identity, browser, connectors := c.actions, c.identity, c.browser, c.connectors;
    }

    /** `AgentOsProfile::apply_to` */
    method Apply(p: AgentOsProfile)
      modifies this
      ensures Contents() == Applied(p, old(Contents()))
    {
      hide MergeEntries, PatchKernel, PatchStorage, PatchModel, PatchPolicy, PatchActions, PatchIdentity, PatchBrowser;
      ApplyKernelAndStorage(p.kernel, p.storage);
      ApplyModel(p.model);
      ApplyPolicyAndActions(p.policy, p.actions);
      ApplyIdentity(p.identity);
      ApplyBrowser(p.browser);
      connectors := ApplyEntries(PatchConnector, DEFAULT_CONNECTOR, p.connectors, connectors);
    }

    method ApplyKernelAndStorage(kernelPatch: Option<KernelConfigPatch>, storagePatch: Option<StorageConfigPatch>)
      modifies this`kernel, this`storage
      ensures kernel == PatchKernel(kernelPatch, old(kernel))
      ensures storage == PatchStorage(storagePatch, old(storage))
    {
      if kernelPatch.Some? && kernelPatch.value.profile.Some? {
        kernel := kernel.(profile := kernelPatch.value.profile);
      }
      if storagePatch.Some? && storagePatch.value.root.Some? {
        storage := storage.(root := storagePatch.value.root.value);
      }
    }

    method ApplyModel(patch: Option<ModelConfigPatch>)
      modifies this`model
      ensures model == PatchModel(patch, old(model))
    {
      if patch.Some? {
        if patch.value.defaultProvider.Some? {
          model := model.(defaultProvider := patch.value.defaultProvider.value);
        }
        if patch.value.defaultModel.Some? {
          model := model.(defaultModel := patch.value.defaultModel.value);
        }
        var providers := ApplyEntries(PatchProvider, DEFAULT_PROVIDER, patch.value.providers, model.providers);
        model := model.(providers := providers);
      }
    }

    method ApplyPolicyAndActions(policyPatch: Option<PolicyConfigPatch>, patch: Option<ActionRuntimeConfigPatch>)
      modifies this`policy, this`actions
      ensures policy == PatchPolicy(policyPatch, old(policy))
      ensures actions == PatchActions(patch, old(actions))
    {
      if policyPatch.Some? && policyPatch.value.mode.Some? {
        policy := policy.(mode := policyPatch.value.mode.value);
      }
      if patch.Some? {
        if patch.value.defaultPolicyMode.Some? {
          actions := actions.(defaultPolicyMode := patch.value.defaultPolicyMode.value);
        }
        var perAction := ApplyEntries(PatchActionPolicy, DEFAULT_ACTION_POLICY, patch.value.perAction,
          actions.perAction);
        actions := actions.(perAction := perAction);
      }
    }

    method ApplyIdentity(patch: Option<IdentityConfigPatch>)
      modifies this`identity
      ensures identity == PatchIdentity(patch, old(identity))
    {
      if patch.Some? {
        if patch.value.mode.Some? {
          identity := identity.(mode := patch.value.mode.value);
        }
        if patch.value.cryptoProvider.Some? {
          identity := identity.(cryptoProvider := patch.value.cryptoProvider.value);
        }
      }
    }

    method ApplyBrowser(patch: Option<BrowserConfigPatch>)
      modifies this`browser
      ensures browser == PatchBrowser(patch, old(browser))
    {
      if patch.Some? {
        if patch.value.profile.Some? {
          browser := browser.(profile := patch.value.profile);
        }
        if patch.value.profilePolicy.Some? {
          browser := browser.(profilePolicy := patch.value.profilePolicy.value);
        }
        if patch.value.allowJs.Some? {
          browser := browser.(allowJs := patch.value.allowJs.value);
        }
      }
    }
  }

  // ---------------------------------------------------------------- resolving a profile

  datatype Document = Document(config: Config, profiles: map<string, AgentOsProfile>) {
    function Parents(): Parents {
      map name | name in profiles :: profiles[name].parent
    }
  }

  function Select(doc: Document, chain: seq<string>): seq<AgentOsProfile>
    requires forall i | 0 <= i < |chain| :: chain[i] in doc.profiles
  {
    seq(|chain|, i requires 0 <= i < |chain| => doc.profiles[chain[i]])
  }

  /** A resolved profile is the base configuration under the profiles of its inheritance chain,
      parents first; the lookup of a chain's profile never fails. */
  method ResolveProfile(doc: Document, profile: string)
    returns (result: Result<AgentOsConfig, ProfileError>, ghost chain: seq<string>)
    ensures result.Ok? ==>
      && IsInheritanceChain(doc.Parents(), profile, chain)
      && (forall i | 0 <= i < |chain| :: chain[i] in doc.profiles)
      && fresh(result.value)
      && result.value.Contents() == Layered(doc.config, Select(doc, chain))
    ensures result.Err? ==> exists walk :: Explains(doc.Parents(), profile, Err(result.error), walk)
  {
    hide IsInheritanceChain, Explains, Layered, Applied;
    var resolvedChain, walk := ResolveProfileChain(doc.Parents(), profile);
    chain := [];
    if resolvedChain.Err? {
      return Err(resolvedChain.error), chain;
    }
    var names := resolvedChain.value;
    chain := names;
    ResolvedChainIsInheritanceChain(doc.Parents(), profile, names, walk);
    ChainIsKnown(doc, profile, names);
    var resolved := new AgentOsConfig.Clone(doc.config);
    LayeredUnfold(doc.config, []);
    assert Select(doc, names[..0]) == [];
    for i := 0 to |names|
      invariant fresh(resolved)
      invariant resolved.Contents() == Layered(doc.config, Select(doc, names[..i]))
    {
      LayeredUnfold(doc.config, Select(doc, names[..i + 1]));
      assert Select(doc, names[..i + 1])[..i] == Select(doc, names[..i]);
      resolved.Apply(doc.profiles[names[i]]);
    }
    assert names[..|names|] == names;
    return Ok(resolved), chain;
  }

  lemma LayeredUnfold(base: Config, chain: seq<AgentOsProfile>)
    ensures Layered(base, chain) ==
            if chain == [] then base
            else Applied(chain[|chain| - 1], Layered(base, chain[..|chain| - 1]))
  {
  }

  lemma ResolvedChainIsInheritanceChain(parents: Parents, profile: string, chain: seq<string>, walk: seq<string>)
    requires Explains(parents, profile, Ok(chain), walk)
    ensures IsInheritanceChain(parents, profile, chain)
  {
    ReversedTwice(walk);
    ChainIsResolved(parents, profile, chain);
  }

  lemma ChainIsKnown(doc: Document, profile: string, chain: seq<string>)
    requires IsInheritanceChain(doc.Parents(), profile, chain)
    ensures forall i | 0 <= i < |chain| :: chain[i] in doc.profiles
  {
    forall i | 0 <= i < |chain|
      ensures chain[i] in doc.profiles
    {
      assert i > 0 ==> Leads(doc.Parents(), chain[i], chain[i - 1]);
    }
  }

  // ---------------------------------------------------------------- nearest setter

  /** The value set by the most derived profile that sets it, else the base value. */
  function Nearest<T>(sets: AgentOsProfile -> Option<T>, chain: seq<AgentOsProfile>, base: T): T {
    if chain == [] then base
    else
      var own := sets(chain[|chain| - 1]);
      if own.Some? then own.value else Nearest(sets, chain[..|chain| - 1], base)
  }

  /** What `Nearest` means: an index of the chain that sets the value and after which none does. */
  lemma {:induction false} NearestIsLastSetter<T>(sets: AgentOsProfile -> Option<T>, chain: seq<AgentOsProfile>,
                                                  base: T, i: nat)
    requires i < |chain| && sets(chain[i]).Some? && forall j | i < j < |chain| :: sets(chain[j]).None?
    ensures Nearest(sets, chain, base) == sets(chain[i]).value
  {
    if i < |chain| - 1 {
      NearestIsLastSetter(sets, chain[..|chain| - 1], base, i);
    }
  }

  lemma {:induction false} NearestIsBaseWhenUnset<T>(sets: AgentOsProfile -> Option<T>, chain: seq<AgentOsProfile>,
                                                     base: T)
    requires forall j | 0 <= j < |chain| :: sets(chain[j]).None?
    ensures Nearest(sets, chain, base) == base
  {
    if chain != [] {
      NearestIsBaseWhenUnset(sets, chain[..|chain| - 1], base);
    }
  }

  // ---------------------------------------------------------------- which profile sets what

  function In<P, T>(patch: Option<P>, field: P -> Option<T>): Option<T> {
    if patch.Some? then field(patch.value) else None
  }

  /** An optional field is set to `Some(value)`, never to `None`. */
  function Set<T>(patch: Option<T>): Option<Option<T>> {
    if patch.Some? then Some(patch) else None
  }

  const SETS_KERNEL_PROFILE := (p: AgentOsProfile) => In(p.kernel, (k: KernelConfigPatch) => Set(k.profile))
  const SETS_STORAGE_ROOT := (p: AgentOsProfile) => In(p.storage, (s: StorageConfigPatch) => s.root)
  const SETS_DEFAULT_PROVIDER := (p: AgentOsProfile) => In(p.model, (m: ModelConfigPatch) => m.defaultProvider)
  const SETS_DEFAULT_MODEL := (p: AgentOsProfile) => In(p.model, (m: ModelConfigPatch) => m.defaultModel)
  const SETS_POLICY_MODE := (p: AgentOsProfile) => In(p.policy, (q: PolicyConfigPatch) => q.mode)
  const SETS_ACTION_MODE := (p: AgentOsProfile) => In(p.actions, (a: ActionRuntimeConfigPatch) => a.defaultPolicyMode)
  const SETS_IDENTITY_MODE := (p: AgentOsProfile) => In(p.identity, (i: IdentityConfigPatch) => i.mode)
  const SETS_CRYPTO_PROVIDER := (p: AgentOsProfile) => In(p.identity, (i: IdentityConfigPatch) => i.cryptoProvider)
  const SETS_BROWSER_PROFILE := (p: AgentOsProfile) => In(p.browser, (b: BrowserConfigPatch) => Set(b.profile))
  const SETS_PROFILE_POLICY := (p: AgentOsProfile) => In(p.browser, (b: BrowserConfigPatch) => b.profilePolicy)
  const SETS_ALLOW_JS := (p: AgentOsProfile) => In(p.browser, (b: BrowserConfigPatch) => b.allowJs)

  /** Every scalar field of a resolved configuration has its nearest setter's value. */
  lemma {:induction false} ScalarsAreNearest(base: Config, chain: seq<AgentOsProfile>)
    ensures
      var c := Layered(base, chain);
      && c.kernel.profile == Nearest(SETS_KERNEL_PROFILE, chain, base.kernel.profile)
      && c.storage.root == Nearest(SETS_STORAGE_ROOT, chain, base.storage.root)
      && c.model.defaultProvider == Nearest(SETS_DEFAULT_PROVIDER, chain, base.model.defaultProvider)
      && c.model.defaultModel == Nearest(SETS_DEFAULT_MODEL, chain, base.model.defaultModel)
      && c.policy.mode == Nearest(SETS_POLICY_MODE, chain, base.policy.mode)
      && c.actions.defaultPolicyMode == Nearest(SETS_ACTION_MODE, chain, base.actions.defaultPolicyMode)
      && c.identity.mode == Nearest(SETS_IDENTITY_MODE, chain, base.identity.mode)
      && c.identity.cryptoProvider == Nearest(SETS_CRYPTO_PROVIDER, chain, base.identity.cryptoProvider)
      && c.browser.profile == Nearest(SETS_BROWSER_PROFILE, chain, base.browser.profile)
      && c.browser.profilePolicy == Nearest(SETS_PROFILE_POLICY, chain, base.browser.profilePolicy)
      && c.browser.allowJs == Nearest(SETS_ALLOW_JS, chain, base.browser.allowJs)
  {
    hide MergeEntries;
    if chain != [] {
      ScalarsAreNearest(base, chain[..|chain| - 1]);
    }
  }

  // ---------------------------------------------------------------- entries

  function Patches<P>(patches: map<string, P>, key: string): Option<P> {
    if key in patches then Some(patches[key]) else None
  }

  function ProviderPatch(p: AgentOsProfile, key: string): Option<ModelProviderConfigPatch> {
    if p.model.Some? then Patches(p.model.value.providers, key) else None
  }

  function ActionPatch(p: AgentOsProfile, key: string): Option<ActionPolicyConfigPatch> {
    if p.actions.Some? then Patches(p.actions.value.perAction, key) else None
  }

  function ConnectorPatch(p: AgentOsProfile, key: string): Option<ConnectorConfigPatch> {
    Patches(p.connectors, key)
  }

  function ConnectorRuntimePatch(p: AgentOsProfile, key: string): Option<ConnectorRuntimeConfigPatch> {
    if key in p.connectors then p.connectors[key].runtime else None
  }

  function ProviderOf(c: Config, key: string): ModelProviderConfig {
    EntryOr(c.model.providers, key, DEFAULT_PROVIDER)
  }

  function ActionPolicyOf(c: Config, key: string): ActionPolicyConfig {
    EntryOr(c.actions.perAction, key, DEFAULT_ACTION_POLICY)
  }

  function ConnectorOf(c: Config, key: string): ConnectorConfig {
    EntryOr(c.connectors, key, DEFAULT_CONNECTOR)
  }

  function SetsProvider<T>(key: string, field: ModelProviderConfigPatch -> Option<T>): AgentOsProfile -> Option<T> {
    p => In(ProviderPatch(p, key), field)
  }

  function SetsConnector<T>(key: string, field: ConnectorConfigPatch -> Option<T>): AgentOsProfile -> Option<T> {
    p => In(ConnectorPatch(p, key), field)
  }

  function SetsConnectorRuntime<T>(key: string, field: ConnectorRuntimeConfigPatch -> Option<T>)
    : AgentOsProfile -> Option<T>
  {
    p => In(ConnectorRuntimePatch(p, key), field)
  }

  function SetsActionMode(key: string): AgentOsProfile -> Option<string> {
    p => In(ActionPatch(p, key), (a: ActionPolicyConfigPatch) => a.mode)
  }

  const PROVIDER := (q: ModelProviderConfigPatch) => q.provider
  const PROVIDER_ENDPOINT := (q: ModelProviderConfigPatch) => q.endpoint
  const PROVIDER_API_KEY := (q: ModelProviderConfigPatch) => Set(q.apiKey)
  const PROVIDER_MODEL := (q: ModelProviderConfigPatch) => q.model
  const PROVIDER_TIMEOUT := (q: ModelProviderConfigPatch) => Set(q.timeoutSecs)
  const CONNECTOR_ENABLED := (q: ConnectorConfigPatch) => q.enabled
  const CONNECTOR_ENDPOINT := (q: ConnectorConfigPatch) => Set(q.endpoint)
  const CONNECTOR_TOKEN := (q: ConnectorConfigPatch) => Set(q.token)
  const CONNECTOR_ISOLATION := (q: ConnectorRuntimeConfigPatch) => q.isolation
  const CONNECTOR_RATE_LIMIT := (q: ConnectorRuntimeConfigPatch) => Set(q.rateLimitPerMinute)
  const CONNECTOR_HEALTH_CHECK := (q: ConnectorRuntimeConfigPatch) => Set(q.healthCheckIntervalSecs)

  lemma OneProfilePatchesProvider(p: AgentOsProfile, c: Config, key: string)
    ensures
      var patch := ProviderPatch(p, key);
      ProviderOf(Applied(p, c), key) ==
      if patch.Some? then PatchProvider(patch.value, ProviderOf(c, key)) else ProviderOf(c, key)
  {
  }

  lemma OneProfilePatchesActionPolicy(p: AgentOsProfile, c: Config, key: string)
    ensures
      var patch := ActionPatch(p, key);
      ActionPolicyOf(Applied(p, c), key) ==
      if patch.Some? then PatchActionPolicy(patch.value, ActionPolicyOf(c, key)) else ActionPolicyOf(c, key)
  {
  }

  lemma OneProfilePatchesConnector(p: AgentOsProfile, c: Config, key: string)
    ensures
      var patch := ConnectorPatch(p, key);
      ConnectorOf(Applied(p, c), key) ==
      if patch.Some? then PatchConnector(patch.value, ConnectorOf(c, key)) else ConnectorOf(c, key)
  {
  }

  /** What an entry that only profiles mention starts from. */
  lemma EntriesStartFrom(c: Config, key: string)
    ensures ProviderOf(c, key) ==
            if key in c.model.providers then c.model.providers[key] else ModelProviderConfig("", "", None, "", None)
    ensures ActionPolicyOf(c, key) ==
            if key in c.actions.perAction then c.actions.perAction[key] else ActionPolicyConfig("ask")
    ensures ConnectorOf(c, key) ==
            if key in c.connectors then c.connectors[key]
            else ConnectorConfig(false, None, None, ConnectorRuntimeConfig("shared", None, None))
  {
  }

  /** Provider entries likewise, field by field, an entry absent from the base starting from the
      default. */
  lemma {:induction false} ProvidersAreNearest(base: Config, chain: seq<AgentOsProfile>, key: string)
    ensures
      var c, b := ProviderOf(Layered(base, chain), key), ProviderOf(base, key);
      && c.provider == Nearest(SetsProvider(key, PROVIDER), chain, b.provider)
      && c.endpoint == Nearest(SetsProvider(key, PROVIDER_ENDPOINT), chain, b.endpoint)
      && c.apiKey == Nearest(SetsProvider(key, PROVIDER_API_KEY), chain, b.apiKey)
      && c.model == Nearest(SetsProvider(key, PROVIDER_MODEL), chain, b.model)
      && c.timeoutSecs == Nearest(SetsProvider(key, PROVIDER_TIMEOUT), chain, b.timeoutSecs)
  {
    hide MergeEntries, Applied;
    if chain != [] {
      var front, last := chain[..|chain| - 1], chain[|chain| - 1];
      ProvidersAreNearest(base, front, key);
      OneProfilePatchesProvider(last, Layered(base, front), key);
    }
  }

  /** Per-action policies too, */
  lemma {:induction false} ActionPoliciesAreNearest(base: Config, chain: seq<AgentOsProfile>, key: string)
    ensures ActionPolicyOf(Layered(base, chain), key).mode ==
      Nearest(SetsActionMode(key), chain, ActionPolicyOf(base, key).mode)
  {
    hide MergeEntries, Applied;
    if chain != [] {
      var front, last := chain[..|chain| - 1], chain[|chain| - 1];
      ActionPoliciesAreNearest(base, front, key);
      OneProfilePatchesActionPolicy(last, Layered(base, front), key);
    }
  }

  /** and connectors with their nested runtime settings. */
  lemma {:induction false} ConnectorsAreNearest(base: Config, chain: seq<AgentOsProfile>, key: string)
    ensures
      var c, b := ConnectorOf(Layered(base, chain), key), ConnectorOf(base, key);
      && c.enabled == Nearest(SetsConnector(key, CONNECTOR_ENABLED), chain, b.enabled)
      && c.endpoint == Nearest(SetsConnector(key, CONNECTOR_ENDPOINT), chain, b.endpoint)
      && c.token == Nearest(SetsConnector(key, CONNECTOR_TOKEN), chain, b.token)
      && c.runtime.isolation == Nearest(SetsConnectorRuntime(key, CONNECTOR_ISOLATION), chain, b.runtime.isolation)
      && c.runtime.rateLimitPerMinute ==
         Nearest(SetsConnectorRuntime(key, CONNECTOR_RATE_LIMIT), chain, b.runtime.rateLimitPerMinute)
      && c.runtime.healthCheckIntervalSecs ==
         Nearest(SetsConnectorRuntime(key, CONNECTOR_HEALTH_CHECK), chain, b.runtime.healthCheckIntervalSecs)
  {
    hide MergeEntries, Applied;
    if chain != [] {
      var front, last := chain[..|chain| - 1], chain[|chain| - 1];
      ConnectorsAreNearest(base, front, key);
      OneProfilePatchesConnector(last, Layered(base, front), key);
    }
  }

  ghost predicate Any(chain: seq<AgentOsProfile>, has: AgentOsProfile -> bool) {
    exists i | 0 <= i < |chain| :: has(chain[i])
  }

  lemma AnyUnfold(chain: seq<AgentOsProfile>, has: AgentOsProfile -> bool)
    requires chain != []
    ensures Any(chain, has) <==> Any(chain[..|chain| - 1], has) || has(chain[|chain| - 1])
  {
    if Any(chain[..|chain| - 1], has) {
      var i :| 0 <= i < |chain| - 1 && has(chain[..|chain| - 1][i]);
      assert has(chain[i]);
    }
    if Any(chain, has) && !has(chain[|chain| - 1]) {
      var i :| 0 <= i < |chain| && has(chain[i]);
      assert has(chain[..|chain| - 1][i]);
    }
  }

  function MentionsProvider(key: string): AgentOsProfile -> bool {
    p => ProviderPatch(p, key).Some?
  }

  function MentionsAction(key: string): AgentOsProfile -> bool {
    p => ActionPatch(p, key).Some?
  }

  function MentionsConnector(key: string): AgentOsProfile -> bool {
    p => ConnectorPatch(p, key).Some?
  }

  /** The keys of the three maps are those of the base and those some profile mentions. */
  lemma {:induction false} KeysAreBaseAndMentioned(base: Config, chain: seq<AgentOsProfile>, key: string)
    ensures
      var c := Layered(base, chain);
      && (key in c.model.providers <==> key in base.model.providers || Any(chain, MentionsProvider(key)))
      && (key in c.actions.perAction <==> key in base.actions.perAction || Any(chain, MentionsAction(key)))
      && (key in c.connectors <==> key in base.connectors || Any(chain, MentionsConnector(key)))
  {
    hide MergeEntries, Applied, Any;
    if chain == [] {
      NoneInEmpty(MentionsProvider(key));
      NoneInEmpty(MentionsAction(key));
      NoneInEmpty(MentionsConnector(key));
    } else {
      var front, last := chain[..|chain| - 1], chain[|chain| - 1];
      KeysAreBaseAndMentioned(base, front, key);
      OneProfileAddsItsKeys(last, Layered(base, front), key);
      AnyUnfold(chain, MentionsProvider(key));
      AnyUnfold(chain, MentionsAction(key));
      AnyUnfold(chain, MentionsConnector(key));
    }
  }

  lemma NoneInEmpty(has: AgentOsProfile -> bool)
    ensures !Any([], has)
  {
  }

  lemma OneProfileAddsItsKeys(p: AgentOsProfile, c: Config, key: string)
    ensures key in Applied(p, c).model.providers <==> key in c.model.providers || ProviderPatch(p, key).Some?
    ensures key in Applied(p, c).actions.perAction <==> key in c.actions.perAction || ActionPatch(p, key).Some?
    ensures key in Applied(p, c).connectors <==> key in c.connectors || ConnectorPatch(p, key).Some?
  {
  }
}
