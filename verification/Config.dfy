/**
 The static configuration: layered protocol capabilities, their validation, and the
 lookup that validation makes safe.
 */
module Config {
  import opened Base
  import opened Strings
  import opened Features
  import Snapshot

  datatype DeclaredMode = DeclaredNative | DeclaredAdapter | DeclaredUnsupported

  datatype Declared = Declared(mode: DeclaredMode, source: Option<Protocol>, adapter: Option<string>)

  type Matrix = map<Protocol, Declared>

  type Endpoints = map<Protocol, string>

  /** Per-model overrides, by model name or by pattern with a trailing star. */
  type Overrides = map<string, Matrix>

  datatype ProviderConfig = ProviderConfig(
    id: string,
    nativeProtocols: seq<Protocol>,
    endpoints: Endpoints,
    matrix: Matrix,
    overrides: Overrides)

  datatype AccountConfig = AccountConfig(id: string, providerId: string, matrix: Matrix, overrides: Overrides)

  datatype RouteConfig = RouteConfig(
    id: string,
    model: string,
    providerId: string,
    protocols: seq<Protocol>,
    primaryAccountId: string,
    fallbackAccounts: seq<string>,
    mode: string,
    adapter: Option<string>)

  datatype GatewayConfig = GatewayConfig(
    providers: seq<ProviderConfig>,
    accounts: seq<AccountConfig>,
    routes: seq<RouteConfig>)

  const NATIVE := Declared(DeclaredNative, None, None)
  const UNSUPPORTED := Declared(DeclaredUnsupported, None, None)

  predicate HasEndpoint(endpoints: Endpoints, p: Protocol) {
    Snapshot.HasEndpoint(endpoints, p)
  }

  function FindProvider(providers: seq<ProviderConfig>, id: string): (r: Option<ProviderConfig>)
    ensures r.Some? ==> r.value in providers && r.value.id == id
  {
    if providers == [] then None
    else if providers[0].id == id then Some(providers[0]) else FindProvider(providers[1..], id)
  }

  function FindAccount(accounts: seq<AccountConfig>, id: string): (r: Option<AccountConfig>)
    ensures r.Some? ==> r.value in accounts && r.value.id == id
  {
    if accounts == [] then None
    else if accounts[0].id == id then Some(accounts[0]) else FindAccount(accounts[1..], id)
  }

  // ---------------------------------------------------------------------------
  // What validation demands.
  // ---------------------------------------------------------------------------

  /** A declaration that can be acted on: unsupported, or native with an endpoint, or an
      adapter registered for this direction over another protocol with an endpoint. */
  predicate Usable(adapters: AdapterRegistry, endpoints: Endpoints, p: Protocol, d: Declared) {
    match d.mode
    case DeclaredUnsupported => true
    case DeclaredNative => HasEndpoint(endpoints, p)
    case DeclaredAdapter =>
      && d.source.Some? && d.source.value != p
      && d.adapter.Some? && !Blank(d.adapter.value) && d.adapter.value in adapters
      && adapters[d.adapter.value].from == p && adapters[d.adapter.value].to == d.source.value
      && HasEndpoint(endpoints, d.source.value)
  }

  /** Only adapters name a source and an adapter. */
  predicate Shaped(d: Declared) {
    !d.mode.DeclaredAdapter? ==> d.source.None? && d.adapter.None?
  }

  /** An adapter does not rest on another adapter or on something unsupported. */
  predicate Direct(base: Matrix, d: Declared) {
    d.mode.DeclaredAdapter? && d.source.Some? && d.source.value in base ==> base[d.source.value].mode.DeclaredNative?
  }

  ghost predicate MatrixOk(adapters: AdapterRegistry, m: Matrix, endpoints: Endpoints, native: seq<Protocol>) {
    && (forall p :: p in native ==> HasEndpoint(endpoints, p))
    && (forall p :: p in m ==> Shaped(m[p]) && Usable(adapters, endpoints, p, m[p]) && Direct(m, m[p]))
  }

  ghost predicate OverrideOk(adapters: AdapterRegistry, m: Matrix, base: Matrix, endpoints: Endpoints,
                             native: seq<Protocol>) {
    && MatrixOk(adapters, m, endpoints, native)
    && (forall p :: p in m ==> Direct(base, m[p]))
  }

  ghost predicate ProviderOk(adapters: AdapterRegistry, p: ProviderConfig) {
    && MatrixOk(adapters, p.matrix, p.endpoints, p.nativeProtocols)
    && (forall k :: k in p.overrides ==> OverrideOk(adapters, p.overrides[k], p.matrix, p.endpoints, p.nativeProtocols))
  }

  const NOWHERE := ProviderConfig("", [], map[], map[], map[])

  /** The provider an account is checked against: an unknown one offers nothing. */
  function ProviderOf(c: GatewayConfig, a: AccountConfig): ProviderConfig {
    var p := FindProvider(c.providers, a.providerId);
    if p.Some? then p.value else NOWHERE
  }

  ghost predicate AccountOk(adapters: AdapterRegistry, p: ProviderConfig, a: AccountConfig) {
    && OverrideOk(adapters, a.matrix, p.matrix, p.endpoints, p.nativeProtocols)
    && (forall k :: k in a.overrides ==>
          OverrideOk(adapters, a.overrides[k], p.matrix + a.matrix, p.endpoints, p.nativeProtocols))
  }

  /** Every provider and every account, with all their overrides, is acceptable. */
  ghost predicate ConfigOk(adapters: AdapterRegistry, c: GatewayConfig) {
    && (forall p :: p in c.providers ==> ProviderOk(adapters, p))
    && (forall a :: a in c.accounts ==> AccountOk(adapters, ProviderOf(c, a), a))
  }

  // ---------------------------------------------------------------------------
  // The validator.
  // ---------------------------------------------------------------------------

  /** `ProtocolCapability::validate`. */
  predicate Wellformed(p: Protocol, d: Declared) {
    match d.mode
    case DeclaredAdapter => d.source.Some? && d.source.value != p && d.adapter.Some? && !Blank(d.adapter.value)
    case _ => d.source.None? && d.adapter.None?
  }

  /** The first pass over one entry: shape, endpoint of a native, direction of an adapter. */
  predicate EntryPass(adapters: AdapterRegistry, endpoints: Endpoints, p: Protocol, d: Declared) {
    && Wellformed(p, d)
    && (d.mode.DeclaredNative? ==> HasEndpoint(endpoints, p))
    && (d.mode.DeclaredAdapter? ==>
          && d.adapter.value in adapters
          && adapters[d.adapter.value].from == p && adapters[d.adapter.value].to == d.source.value)
  }

  /** The second pass: the source of an adapter is directly available. */
  predicate SourcePass(m: Matrix, endpoints: Endpoints, native: seq<Protocol>, d: Declared)
    requires d.mode.DeclaredAdapter? ==> d.source.Some?
  {
    if !d.mode.DeclaredAdapter? then true
    else if d.source.value in m then m[d.source.value].mode.DeclaredNative? && HasEndpoint(endpoints, d.source.value)
    else HasEndpoint(endpoints, d.source.value) || d.source.value in native
  }

  method NativeEndpoints(endpoints: Endpoints, native: seq<Protocol>) returns (ok: bool)
    ensures ok <==> forall p :: p in native ==> HasEndpoint(endpoints, p)
  {
    for i := 0 to |native|
      invariant forall j :: 0 <= j < i ==> HasEndpoint(endpoints, native[j])
    {
      if !HasEndpoint(endpoints, native[i]) {
        return false;
      }
    }
    return true;
  }

  method FirstPass(adapters: AdapterRegistry, m: Matrix, endpoints: Endpoints) returns (ok: bool)
    ensures ok <==> forall p :: p in m ==> EntryPass(adapters, endpoints, p, m[p])
  {
    var left := m.Keys;
    while left != {}
      invariant left <= m.Keys
      invariant forall p :: p in m && p !in left ==> EntryPass(adapters, endpoints, p, m[p])
      decreases left
    {
      var p :| p in left;
      if !EntryPass(adapters, endpoints, p, m[p]) {
        return false;
      }
      left := left - {p};
    }
    return true;
  }

  method SecondPass(m: Matrix, endpoints: Endpoints, native: seq<Protocol>) returns (ok: bool)
    requires forall p :: p in m && m[p].mode.DeclaredAdapter? ==> m[p].source.Some?
    ensures ok <==> forall p :: p in m ==> SourcePass(m, endpoints, native, m[p])
  {
    var left := m.Keys;
    while left != {}
      invariant left <= m.Keys
      invariant forall p :: p in m && p !in left ==> SourcePass(m, endpoints, native, m[p])
      decreases left
    {
      var p :| p in left;
      if !SourcePass(m, endpoints, native, m[p]) {
        return false;
      }
      left := left - {p};
    }
    return true;
  }

  method ValidateMatrix(adapters: AdapterRegistry, m: Matrix, endpoints: Endpoints,
                        native: seq<Protocol>) returns (ok: bool)
    ensures ok <==> MatrixOk(adapters, m, endpoints, native)
  {
    ok := NativeEndpoints(endpoints, native);
    if !ok {
      return;
    }
    ok := FirstPass(adapters, m, endpoints);
    if !ok {
      var p :| p in m && !EntryPass(adapters, endpoints, p, m[p]);
      assert !(Shaped(m[p]) && Usable(adapters, endpoints, p, m[p]));
      return;
    }
    ok := SecondPass(m, endpoints, native);
    if !ok {
      var p :| p in m && !SourcePass(m, endpoints, native, m[p]);
      assert !(Usable(adapters, endpoints, p, m[p]) && Direct(m, m[p]));
    } else {
      forall p | p in m ensures Shaped(m[p]) && Usable(adapters, endpoints, p, m[p]) && Direct(m, m[p]) {
        assert EntryPass(adapters, endpoints, p, m[p]) && SourcePass(m, endpoints, native, m[p]);
      }
    }
  }

  method ValidateOverrideMatrix(adapters: AdapterRegistry, m: Matrix, base: Matrix, endpoints: Endpoints,
                                native: seq<Protocol>)
    returns (ok: bool)
    ensures ok <==> OverrideOk(adapters, m, base, endpoints, native)
  {
    ok := ValidateMatrix(adapters, m, endpoints, native);
    if !ok {
      return;
    }
    var left := m.Keys;
    while left != {}
      invariant left <= m.Keys
      invariant forall p :: p in m && p !in left ==> Direct(base, m[p])
      decreases left
    {
      var p :| p in left;
      assert Usable(adapters, endpoints, p, m[p]);
      var d := m[p];
      if d.mode.DeclaredAdapter? && d.source.value in base {
        match base[d.source.value].mode {
          case DeclaredUnsupported => return false;
          case DeclaredAdapter => return false;
          case DeclaredNative =>
            if !HasEndpoint(endpoints, d.source.value) {
              return false;
            }
        }
      }
      left := left - {p};
    }
  }

  method OverrideErrors(adapters: AdapterRegistry, overrides: Overrides, base: Matrix, endpoints: Endpoints,
                        native: seq<Protocol>)
    returns (errors: nat)
    ensures errors == 0 <==> forall k :: k in overrides ==> OverrideOk(adapters, overrides[k], base, endpoints, native)
  {
    errors := 0;
    var left := overrides.Keys;
    while left != {}
      invariant left <= overrides.Keys
      invariant errors == 0 <==> forall k :: k in overrides && k !in left ==>
                  OverrideOk(adapters, overrides[k], base, endpoints, native)
      decreases left
    {
      var k :| k in left;
      var ok := ValidateOverrideMatrix(adapters, overrides[k], base, endpoints, native);
      if !ok {
        errors := errors + 1;
      }
      left := left - {k};
    }
  }

  method ProviderErrors(adapters: AdapterRegistry, p: ProviderConfig) returns (errors: nat)
    ensures errors == 0 <==> ProviderOk(adapters, p)
  {
    errors := 0;
    var ok := ValidateMatrix(adapters, p.matrix, p.endpoints, p.nativeProtocols);
    if !ok {
      errors := errors + 1;
    }
    var more := OverrideErrors(adapters, p.overrides, p.matrix, p.endpoints, p.nativeProtocols);
    errors := errors + more;
  }

  method AccountErrors(adapters: AdapterRegistry, c: GatewayConfig, a: AccountConfig) returns (errors: nat)
    ensures errors == 0 <==> AccountOk(adapters, ProviderOf(c, a), a)
  {
    errors := 0;
    var provider := FindProvider(c.providers, a.providerId);
    var endpoints := if provider.Some? then provider.value.endpoints else map[];
    var native := if provider.Some? then provider.value.nativeProtocols else [];
    var base := if provider.Some? then provider.value.matrix else map[];
    var ok := ValidateOverrideMatrix(adapters, a.matrix, base, endpoints, native);
    if !ok {
      errors := errors + 1;
    }
    var more := OverrideErrors(adapters, a.overrides, base + a.matrix, endpoints, native);
    errors := errors + more;
  }

  method LayerErrors(adapters: AdapterRegistry, c: GatewayConfig) returns (errors: nat)
    ensures errors == 0 <==> ConfigOk(adapters, c)
  {
    errors := 0;
    for i := 0 to |c.providers|
      invariant errors == 0 <==> forall j :: 0 <= j < i ==> ProviderOk(adapters, c.providers[j])
    {
      var more := ProviderErrors(adapters, c.providers[i]);
      errors := errors + more;
    }
    assert errors == 0 <==> forall p :: p in c.providers ==> ProviderOk(adapters, p);
    for i := 0 to |c.accounts|
      invariant errors == 0 <==>
                  && (forall p :: p in c.providers ==> ProviderOk(adapters, p))
                  && (forall j :: 0 <= j < i ==> AccountOk(adapters, ProviderOf(c, c.accounts[j]), c.accounts[j]))
    {
      var more := AccountErrors(adapters, c, c.accounts[i]);
      errors := errors + more;
    }
  }

  // ---------------------------------------------------------------------------
  // The lookup.
  // ---------------------------------------------------------------------------

  predicate Matches(pattern: string, model: string) {
    pattern != [] && pattern[|pattern| - 1] == '*' && pattern[..|pattern| - 1] <= model
  }

  /** What the override search may return: the exact entry, else any matching pattern. */
  ghost predicate MayChoose(overrides: Overrides, model: string, choice: Option<Matrix>) {
    if model in overrides then choice == Some(overrides[model])
    else if choice.Some? then exists k :: k in overrides && Matches(k, model) && overrides[k] == choice.value
    else forall k :: k in overrides ==> !Matches(k, model)
  }

  method FindModelOverride(overrides: Overrides, model: string) returns (choice: Option<Matrix>)
    ensures MayChoose(overrides, model, choice)
  {
    if model in overrides {
      return Some(overrides[model]);
    }
    var left := overrides.Keys;
    while left != {}
      invariant left <= overrides.Keys
      invariant forall k :: k in overrides && k !in left ==> !Matches(k, model)
      decreases left
    {
      var k :| k in left;
      if k == "*" || Matches(k, model) {
        assert Matches(k, model);
        return Some(overrides[k]);
      }
      left := left - {k};
    }
    return None;
  }

  /** The four layers that may decide a protocol, strongest first, then the defaults. */
  datatype Layers = Layers(accountModel: Matrix, providerModel: Matrix, account: Matrix, provider: Matrix)

  datatype Layer = AccountModel | ProviderModel | AccountLayer | ProviderLayer | Default

  function Decider(l: Layers, p: Protocol): Layer {
    if p in l.accountModel then AccountModel
    else if p in l.providerModel then ProviderModel
    else if p in l.account then AccountLayer
    else if p in l.provider then ProviderLayer
    else Default
  }

  /** The effective declaration of a protocol for a provider and an account. */
  function Effective(l: Layers, provider: Option<ProviderConfig>, p: Protocol): Declared {
    match Decider(l, p)
    case AccountModel => l.accountModel[p]
    case ProviderModel => l.providerModel[p]
    case AccountLayer => l.account[p]
    case ProviderLayer => l.provider[p]
    case Default =>
      if provider.Some? && p in provider.value.nativeProtocols && p in provider.value.endpoints then NATIVE
      else UNSUPPORTED
  }

  /** The layers a lookup sees, for some choice of pattern in each override map. */
  ghost predicate Sees(provider: Option<ProviderConfig>, account: Option<AccountConfig>, model: string, l: Layers) {
    && (match account
        case None => l.accountModel == map[] && l.account == map[]
        case Some(a) =>
          l.account == a.matrix && exists c :: MayChoose(a.overrides, model, c) && l.accountModel == OrEmpty(c))
    && (match provider
        case None => l.providerModel == map[] && l.provider == map[]
        case Some(p) =>
          l.provider == p.matrix && exists c :: MayChoose(p.overrides, model, c) && l.providerModel == OrEmpty(c))
  }

  function OrEmpty(choice: Option<Matrix>): Matrix {
    if choice.Some? then choice.value else map[]
  }

  /** The declaration the documented precedence gives, from the chosen overrides of the account
      and of the provider down to the provider's legacy fields. */
  ghost predicate ByPrecedence(provider: Option<ProviderConfig>, account: Option<AccountConfig>,
                               accountChoice: Option<Matrix>, providerChoice: Option<Matrix>, p: Protocol,
                               d: Declared) {
    if accountChoice.Some? && p in accountChoice.value then d == accountChoice.value[p]
    else if providerChoice.Some? && p in providerChoice.value then d == providerChoice.value[p]
    else if account.Some? && p in account.value.matrix then d == account.value.matrix[p]
    else if provider.Some? && p in provider.value.matrix then d == provider.value.matrix[p]
    else if provider.Some? && p in provider.value.nativeProtocols && p in provider.value.endpoints
    then d == Declared(DeclaredNative, None, None)
    else d == Declared(DeclaredUnsupported, None, None)
  }

  /** The overrides a lookup may choose for the model: none for an unknown owner. */
  ghost predicate Chosen(provider: Option<ProviderConfig>, account: Option<AccountConfig>, model: string,
                         accountChoice: Option<Matrix>, providerChoice: Option<Matrix>) {
    && (if account.Some? then MayChoose(account.value.overrides, model, accountChoice) else accountChoice == None)
    && (if provider.Some? then MayChoose(provider.value.overrides, model, providerChoice) else providerChoice == None)
  }

  /** The layers of chosen overrides answer by precedence. */
  lemma {:induction false} EffectiveByPrecedence(provider: Option<ProviderConfig>, account: Option<AccountConfig>,
                                                 model: string, l: Layers, p: Protocol)
    returns (accountChoice: Option<Matrix>, providerChoice: Option<Matrix>)
    requires Sees(provider, account, model, l)
    ensures Chosen(provider, account, model, accountChoice, providerChoice)
    ensures ByPrecedence(provider, account, accountChoice, providerChoice, p, Effective(l, provider, p))
  {
    accountChoice, providerChoice := None, None;
    if account.Some? {
      accountChoice :|
        MayChoose(account.value.overrides, model, accountChoice) && l.accountModel == OrEmpty(accountChoice);
    }
    if provider.Some? {
      providerChoice :|
        MayChoose(provider.value.overrides, model, providerChoice) && l.providerModel == OrEmpty(providerChoice);
    }
  }

  /** A pattern is a prefix with a star behind it. */
  lemma {:induction false} MatchesIff(pattern: string, model: string)
    ensures Matches(pattern, model) <==> exists prefix: string :: pattern == prefix + "*" && prefix <= model
  {
    if Matches(pattern, model) {
      var prefix := pattern[..|pattern| - 1];
      assert pattern == prefix + "*";
    }
    if prefix: string :| pattern == prefix + "*" && prefix <= model {
      assert pattern[..|pattern| - 1] == prefix;
    }
  }

  /** A lookup by id finds the first entry with it. */
  lemma {:induction false} FindsFirst(c: GatewayConfig, i: nat, j: nat)
    ensures i < |c.providers| && (forall k :: 0 <= k < i ==> c.providers[k].id != c.providers[i].id) ==>
              FindProvider(c.providers, c.providers[i].id) == Some(c.providers[i])
    ensures j < |c.accounts| && (forall k :: 0 <= k < j ==> c.accounts[k].id != c.accounts[j].id) ==>
              FindAccount(c.accounts, c.accounts[j].id) == Some(c.accounts[j])
    decreases i + j
  {
    if i < |c.providers| && i > 0 {
      FindsFirst(GatewayConfig(c.providers[1..], [], []), i - 1, 0);
    }
    if j < |c.accounts| && j > 0 {
      FindsFirst(GatewayConfig([], c.accounts[1..], []), 0, j - 1);
    }
  }

  method ProtocolCapability(c: GatewayConfig, providerId: string, accountId: Option<string>, model: string, p: Protocol)
    returns (d: Declared)
    ensures exists l ::
              && Sees(FindProvider(c.providers, providerId), FindAccountById(c, accountId), model, l)
              && d == Effective(l, FindProvider(c.providers, providerId), p)
    ensures exists accountChoice, providerChoice ::
              var provider, account := FindProvider(c.providers, providerId), FindAccountById(c, accountId);
              && Chosen(provider, account, model, accountChoice, providerChoice)
              && ByPrecedence(provider, account, accountChoice, providerChoice, p, d)
  {
    var provider := FindProvider(c.providers, providerId);
    var account := FindAccountById(c, accountId);
    var am: Option<Matrix> := None;
    var pm: Option<Matrix> := None;
    if account.Some? {
      am := FindModelOverride(account.value.overrides, model);
    }
    if provider.Some? {
      pm := FindModelOverride(provider.value.overrides, model);
    }
    ghost var l := Layers(OrEmpty(am), OrEmpty(pm), if account.Some? then account.value.matrix else map[],
                          if provider.Some? then provider.value.matrix else map[]);
    assert Sees(provider, account, model, l);
    if am.Some? && p in am.value {
      d := am.value[p];
    } else if pm.Some? && p in pm.value {
      d := pm.value[p];
    } else if account.Some? && p in account.value.matrix {
      d := account.value.matrix[p];
    } else if provider.Some? && p in provider.value.matrix {
      d := provider.value.matrix[p];
    } else if provider.Some? && p in provider.value.nativeProtocols && p in provider.value.endpoints {
      d := NATIVE;
    } else {
      d := UNSUPPORTED;
    }
    assert d == Effective(l, provider, p);
    assert Chosen(provider, account, model, am, pm) && ByPrecedence(provider, account, am, pm, p, d);
  }

  function FindAccountById(c: GatewayConfig, id: Option<string>): Option<AccountConfig> {
    if id.Some? then FindAccount(c.accounts, id.value) else None
  }

  // ---------------------------------------------------------------------------
  // The routes. A lookup may answer differently for different choices of pattern, so a check
  // may pass for some choice, or must pass for every choice.
  // ---------------------------------------------------------------------------

  /** Some choice, or with must every choice, of patterns makes the protocol native. */
  ghost predicate NativeFor(c: GatewayConfig, providerId: string, accountId: string, model: string, p: Protocol,
                            must: bool) {
    var provider, account := FindProvider(c.providers, providerId), FindAccount(c.accounts, accountId);
    if must then forall l :: Sees(provider, account, model, l) ==> Effective(l, provider, p).mode.DeclaredNative?
    else exists l :: Sees(provider, account, model, l) && Effective(l, provider, p).mode.DeclaredNative?
  }

  ghost predicate ProtocolPasses(adapters: AdapterRegistry, c: GatewayConfig, r: RouteConfig, p: Protocol, must: bool) {
    if r.mode == "native" then NativeFor(c, r.providerId, r.primaryAccountId, r.model, p, must)
    else if r.mode == "adapter" then
      r.adapter.Some? && r.adapter.value in adapters && adapters[r.adapter.value].from == p
    else r.mode == "unsupported" && r.adapter.None?
  }

  /** A fallback of the route's own provider is free; one of another needs native protocols. */
  ghost predicate FallbackPasses(c: GatewayConfig, r: RouteConfig, f: string, must: bool) {
    var account := FindAccount(c.accounts, f);
    && account.Some?
    && (account.value.providerId != r.providerId ==>
          && r.mode != "adapter"
          && FindProvider(c.providers, account.value.providerId).Some?
          && forall p :: p in r.protocols ==> NativeFor(c, account.value.providerId, f, r.model, p, must))
  }

  ghost predicate RoutePasses(adapters: AdapterRegistry, c: GatewayConfig, r: RouteConfig, must: bool) {
    && FindProvider(c.providers, r.providerId).Some?
    && r.protocols != []
    && (forall p :: p in r.protocols ==> ProtocolPasses(adapters, c, r, p, must))
    && (forall f :: f in r.fallbackAccounts ==> FallbackPasses(c, r, f, must))
  }

  /** The whole check: layers and routes. */
  ghost predicate ConfigPasses(adapters: AdapterRegistry, c: GatewayConfig, must: bool) {
    ConfigOk(adapters, c) && forall r :: r in c.routes ==> RoutePasses(adapters, c, r, must)
  }

  method NativeCheck(c: GatewayConfig, providerId: string, accountId: string, model: string,
                     p: Protocol) returns (ok: bool)
    ensures ok ==> NativeFor(c, providerId, accountId, model, p, false)
    ensures NativeFor(c, providerId, accountId, model, p, true) ==> ok
  {
    var d := ProtocolCapability(c, providerId, Some(accountId), model, p);
    ok := d.mode.DeclaredNative?;
  }

  method ProtocolErrors(adapters: AdapterRegistry, c: GatewayConfig, r: RouteConfig, p: Protocol) returns (ok: bool)
    ensures ok ==> ProtocolPasses(adapters, c, r, p, false)
    ensures ProtocolPasses(adapters, c, r, p, true) ==> ok
  {
    if r.mode == "native" {
      ok := NativeCheck(c, r.providerId, r.primaryAccountId, r.model, p);
    } else if r.mode == "adapter" {
      ok := r.adapter.Some? && r.adapter.value in adapters && adapters[r.adapter.value].from == p;
    } else if r.mode == "unsupported" {
      ok := r.adapter.None?;
    } else {
      ok := false;
    }
  }

  method FallbackCheck(c: GatewayConfig, r: RouteConfig, f: string) returns (ok: bool)
    ensures ok ==> FallbackPasses(c, r, f, false)
    ensures FallbackPasses(c, r, f, true) ==> ok
  {
    var account := FindAccount(c.accounts, f);
    if account.None? {
      return false;
    }
    if account.value.providerId == r.providerId {
      return true;
    }
    ok := r.mode != "adapter";
    if FindProvider(c.providers, account.value.providerId).None? {
      return false;
    }
    for i := 0 to |r.protocols|
      invariant ok ==> r.mode != "adapter"
      invariant ok ==> forall j :: 0 <= j < i ==>
                  NativeFor(c, account.value.providerId, f, r.model, r.protocols[j], false)
      invariant FallbackPasses(c, r, f, true) ==> ok
    {
      var native := NativeCheck(c, account.value.providerId, f, r.model, r.protocols[i]);
      assert r.protocols[i] in r.protocols;
      ok := ok && native;
    }
  }

  method RouteCheck(adapters: AdapterRegistry, c: GatewayConfig, r: RouteConfig) returns (ok: bool)
    ensures ok ==> RoutePasses(adapters, c, r, false)
    ensures RoutePasses(adapters, c, r, true) ==> ok
  {
    if FindProvider(c.providers, r.providerId).None? {
      return false;
    }
    ok := r.protocols != [];
    for i := 0 to |r.protocols|
      invariant ok ==> r.protocols != []
      invariant ok ==> forall j :: 0 <= j < i ==> ProtocolPasses(adapters, c, r, r.protocols[j], false)
      invariant RoutePasses(adapters, c, r, true) ==> ok
    {
      var passes := ProtocolErrors(adapters, c, r, r.protocols[i]);
      assert r.protocols[i] in r.protocols;
      ok := ok && passes;
    }
    assert ok ==> forall p :: p in r.protocols ==> ProtocolPasses(adapters, c, r, p, false);
    for i := 0 to |r.fallbackAccounts|
      invariant ok ==> r.protocols != [] && forall p :: p in r.protocols ==> ProtocolPasses(adapters, c, r, p, false)
      invariant ok ==> forall j :: 0 <= j < i ==> FallbackPasses(c, r, r.fallbackAccounts[j], false)
      invariant RoutePasses(adapters, c, r, true) ==> ok
    {
      var passes := FallbackCheck(c, r, r.fallbackAccounts[i]);
      assert r.fallbackAccounts[i] in r.fallbackAccounts;
      ok := ok && passes;
    }
  }

  /** `GatewayConfig::validate`: acceptance is sound for the choices it made, and a configuration
      that passes for every choice is accepted. */
  method ValidateConfig(adapters: AdapterRegistry, c: GatewayConfig) returns (ok: bool)
    ensures ok ==> ConfigPasses(adapters, c, false)
    ensures ConfigPasses(adapters, c, true) ==> ok
  {
    var errors := LayerErrors(adapters, c);
    ok := errors == 0;
    for i := 0 to |c.routes|
      invariant ok ==> ConfigOk(adapters, c)
      invariant ok ==> forall j :: 0 <= j < i ==> RoutePasses(adapters, c, c.routes[j], false)
      invariant ConfigPasses(adapters, c, true) ==> ok
    {
      var passes := RouteCheck(adapters, c, c.routes[i]);
      assert c.routes[i] in c.routes;
      ok := ok && passes;
    }
  }

  /** No two patterns with different overrides match a model that has no entry of its own. */
  ghost predicate OneChoice(overrides: Overrides, model: string) {
    model in overrides ||
    forall j, k :: j in overrides && k in overrides && Matches(j, model) && Matches(k, model) ==>
      overrides[j] == overrides[k]
  }

  ghost predicate Unambiguous(c: GatewayConfig) {
    && (forall p, model :: p in c.providers ==> OneChoice(p.overrides, model))
    && (forall a, model :: a in c.accounts ==> OneChoice(a.overrides, model))
  }

  lemma {:induction false} OneLayering(c: GatewayConfig, providerId: string, accountId: string, model: string,
                                       l: Layers, m: Layers)
    requires Unambiguous(c)
    requires Sees(FindProvider(c.providers, providerId), FindAccount(c.accounts, accountId), model, l)
    requires Sees(FindProvider(c.providers, providerId), FindAccount(c.accounts, accountId), model, m)
    ensures l == m
  {
    var provider, account := FindProvider(c.providers, providerId), FindAccount(c.accounts, accountId);
    if provider.Some? {
      assert OneChoice(provider.value.overrides, model);
    }
    if account.Some? {
      assert OneChoice(account.value.overrides, model);
    }
  }

  lemma {:induction false} MayIsMust(c: GatewayConfig, providerId: string, accountId: string, model: string,
                                     p: Protocol)
    requires Unambiguous(c) && NativeFor(c, providerId, accountId, model, p, false)
    ensures NativeFor(c, providerId, accountId, model, p, true)
  {
    var provider, account := FindProvider(c.providers, providerId), FindAccount(c.accounts, accountId);
    var l :| Sees(provider, account, model, l) && Effective(l, provider, p).mode.DeclaredNative?;
    forall m | Sees(provider, account, model, m) ensures Effective(m, provider, p).mode.DeclaredNative? {
      OneLayering(c, providerId, accountId, model, l, m);
    }
  }

  /** Where no lookup has a choice, validation is exact. */
  lemma {:induction false} ExactWhenUnambiguous(adapters: AdapterRegistry, c: GatewayConfig)
    requires Unambiguous(c)
    ensures ConfigPasses(adapters, c, false) ==> ConfigPasses(adapters, c, true)
  {
    if ConfigPasses(adapters, c, false) {
      forall r | r in c.routes ensures RoutePasses(adapters, c, r, true) {
        assert RoutePasses(adapters, c, r, false);
        forall p | p in r.protocols ensures ProtocolPasses(adapters, c, r, p, true) {
          if r.mode == "native" {
            MayIsMust(c, r.providerId, r.primaryAccountId, r.model, p);
          }
        }
        forall f | f in r.fallbackAccounts ensures FallbackPasses(c, r, f, true) {
          FallbackMayIsMust(c, r, f);
        }
      }
    }
  }

  lemma {:induction false} FallbackMayIsMust(c: GatewayConfig, r: RouteConfig, f: string)
    requires Unambiguous(c) && FallbackPasses(c, r, f, false)
    ensures FallbackPasses(c, r, f, true)
  {
    var other := FindAccount(c.accounts, f).value.providerId;
    if other != r.providerId {
      forall p | p in r.protocols ensures NativeFor(c, other, f, r.model, p, true) {
        MayIsMust(c, other, f, r.model, p);
      }
    }
  }

  // ---------------------------------------------------------------------------
  // What passes, spelled out.
  // ---------------------------------------------------------------------------

  ghost predicate Reachable(endpoints: Endpoints, p: Protocol) {
    p in endpoints && !Blank(endpoints[p])
  }

  /** The declaration of p as the documentation allows it, beside the other declarations of its matrix. */
  ghost predicate Allowed(adapters: AdapterRegistry, endpoints: Endpoints, m: Matrix, p: Protocol)
    requires p in m
  {
    && (m[p].mode != DeclaredAdapter ==> m[p].source == None && m[p].adapter == None)
    && (m[p].mode == DeclaredNative ==> Reachable(endpoints, p))
    && (m[p].mode == DeclaredAdapter ==>
          && m[p].source.Some? && m[p].adapter.Some? && !Blank(m[p].adapter.value)
          && m[p].adapter.value in adapters
          && adapters[m[p].adapter.value].from == p && adapters[m[p].adapter.value].to == m[p].source.value
          && m[p].source.value != p && Reachable(endpoints, m[p].source.value)
          && (m[p].source.value in m ==> m[m[p].source.value].mode == DeclaredNative))
  }

  lemma {:induction false} MatrixOkIff(adapters: AdapterRegistry, m: Matrix, endpoints: Endpoints,
                                       native: seq<Protocol>)
    ensures MatrixOk(adapters, m, endpoints, native) <==>
              && (forall p :: p in native ==> Reachable(endpoints, p))
              && (forall p :: p in m ==> Allowed(adapters, endpoints, m, p))
  {
    forall p | p in m
      ensures Shaped(m[p]) && Usable(adapters, endpoints, p, m[p]) && Direct(m, m[p]) <==>
                Allowed(adapters, endpoints, m, p)
    {
    }
  }

  /** No adapter of the override rests on a protocol that is declared, and not native, in the base. */
  ghost predicate RestsOnNative(m: Matrix, base: Matrix) {
    forall p, q :: p in m && m[p].mode == DeclaredAdapter && m[p].source == Some(q) && q in base ==>
      base[q].mode == DeclaredNative
  }

  /** Overrides are matrices that rest on the layer below: a provider's on its matrix, an account's matrix
      on its provider's, and an account's overrides on its own matrix laid over its provider's. */
  lemma {:induction false} LayersPassIff(adapters: AdapterRegistry, p: ProviderConfig, a: AccountConfig)
    ensures ProviderOk(adapters, p) <==>
              && MatrixOk(adapters, p.matrix, p.endpoints, p.nativeProtocols)
              && forall k :: k in p.overrides ==>
                   && MatrixOk(adapters, p.overrides[k], p.endpoints, p.nativeProtocols)
                   && RestsOnNative(p.overrides[k], p.matrix)
    ensures AccountOk(adapters, p, a) <==>
              && MatrixOk(adapters, a.matrix, p.endpoints, p.nativeProtocols) && RestsOnNative(a.matrix, p.matrix)
              && forall k :: k in a.overrides ==>
                   && MatrixOk(adapters, a.overrides[k], p.endpoints, p.nativeProtocols)
                   && RestsOnNative(a.overrides[k], p.matrix + a.matrix)
  {
    forall k | k in p.overrides
      ensures RestsOnNative(p.overrides[k], p.matrix) <==> DirectOver(p.overrides[k], p.matrix)
    {
      RestsIff(p.overrides[k], p.matrix);
    }
    forall k | k in a.overrides
      ensures RestsOnNative(a.overrides[k], p.matrix + a.matrix) <==> DirectOver(a.overrides[k], p.matrix + a.matrix)
    {
      RestsIff(a.overrides[k], p.matrix + a.matrix);
    }
    RestsIff(a.matrix, p.matrix);
  }

  lemma {:induction false} RestsIff(m: Matrix, base: Matrix)
    ensures RestsOnNative(m, base) <==> DirectOver(m, base)
  {
    if RestsOnNative(m, base) {
      forall p | p in m ensures Direct(base, m[p]) {
      }
    }
    if DirectOver(m, base) {
      forall p, q | p in m && m[p].mode == DeclaredAdapter && m[p].source == Some(q) && q in base
        ensures base[q].mode == DeclaredNative
      {
        assert Direct(base, m[p]);
      }
    }
  }

  /** Some choice of overrides makes the protocol native by precedence ... */
  ghost predicate NativeBySome(provider: Option<ProviderConfig>, account: Option<AccountConfig>, model: string,
                               p: Protocol) {
    exists am, pm, d ::
      && Chosen(provider, account, model, am, pm) && ByPrecedence(provider, account, am, pm, p, d)
      && d.mode == DeclaredNative
  }

  /** ... or every choice does. */
  ghost predicate NativeByAll(provider: Option<ProviderConfig>, account: Option<AccountConfig>, model: string,
                              p: Protocol) {
    forall am, pm, d ::
      Chosen(provider, account, model, am, pm) && ByPrecedence(provider, account, am, pm, p, d) ==>
        d.mode == DeclaredNative
  }

  lemma {:induction false} LayersOfChoice(provider: Option<ProviderConfig>, account: Option<AccountConfig>,
                                          model: string, am: Option<Matrix>, pm: Option<Matrix>, p: Protocol,
                                          d: Declared)
    returns (l: Layers)
    requires Chosen(provider, account, model, am, pm) && ByPrecedence(provider, account, am, pm, p, d)
    ensures Sees(provider, account, model, l) && Effective(l, provider, p) == d
  {
    l := Layers(OrEmpty(am), OrEmpty(pm), if account.Some? then account.value.matrix else map[],
                if provider.Some? then provider.value.matrix else map[]);
  }

  lemma {:induction false} NativeForIff(c: GatewayConfig, providerId: string, accountId: string, model: string,
                                        p: Protocol)
    ensures var provider, account := FindProvider(c.providers, providerId), FindAccount(c.accounts, accountId);
            && (NativeFor(c, providerId, accountId, model, p, false) <==> NativeBySome(provider, account, model, p))
            && (NativeFor(c, providerId, accountId, model, p, true) <==> NativeByAll(provider, account, model, p))
  {
    var provider, account := FindProvider(c.providers, providerId), FindAccount(c.accounts, accountId);
    forall l | Sees(provider, account, model, l)
      ensures exists am, pm :: Chosen(provider, account, model, am, pm)
                               && ByPrecedence(provider, account, am, pm, p, Effective(l, provider, p))
    {
      var am, pm := EffectiveByPrecedence(provider, account, model, l, p);
    }
    forall am, pm, d | Chosen(provider, account, model, am, pm) && ByPrecedence(provider, account, am, pm, p, d)
      ensures exists l :: Sees(provider, account, model, l) && Effective(l, provider, p) == d
    {
      var l := LayersOfChoice(provider, account, model, am, pm, p, d);
    }
  }

  /** A route passes exactly when its provider is known, it lists a protocol, each listed protocol suits
      its mode, and each fallback account is known and either the route's own provider's or, for a route
      that is no adapter's, native for every protocol at a known provider. */
  lemma {:induction false} RoutePassesIff(adapters: AdapterRegistry, c: GatewayConfig, r: RouteConfig, must: bool)
    ensures RoutePasses(adapters, c, r, must) <==>
              && FindProvider(c.providers, r.providerId) != None && |r.protocols| > 0
              && (forall p :: p in r.protocols ==>
                    && (r.mode == "native" || r.mode == "adapter" || r.mode == "unsupported")
                    && (r.mode == "native" ==> NativeFor(c, r.providerId, r.primaryAccountId, r.model, p, must))
                    && (r.mode == "adapter" ==>
                          r.adapter.Some? && r.adapter.value in adapters && adapters[r.adapter.value].from == p)
                    && (r.mode == "unsupported" ==> r.adapter == None))
              && (forall f :: f in r.fallbackAccounts ==>
                    && FindAccount(c.accounts, f) != None
                    && var other := FindAccount(c.accounts, f).value.providerId;
                    && (other == r.providerId ||
                        (&& r.mode != "adapter" && FindProvider(c.providers, other) != None
                         && forall p :: p in r.protocols ==> NativeFor(c, other, f, r.model, p, must))))
  {
    assert |"native"| == 6 && |"adapter"| == 7 && |"unsupported"| == 11;
    forall p | p in r.protocols
      ensures ProtocolPasses(adapters, c, r, p, must) <==>
                && (r.mode == "native" || r.mode == "adapter" || r.mode == "unsupported")
                && (r.mode == "native" ==> NativeFor(c, r.providerId, r.primaryAccountId, r.model, p, must))
                && (r.mode == "adapter" ==>
                      r.adapter.Some? && r.adapter.value in adapters && adapters[r.adapter.value].from == p)
                && (r.mode == "unsupported" ==> r.adapter == None)
    {
    }
  }

  // ---------------------------------------------------------------------------
  // Validation makes every lookup safe.
  // ---------------------------------------------------------------------------

  function EndpointsOf(provider: Option<ProviderConfig>): Endpoints {
    if provider.Some? then provider.value.endpoints else map[]
  }

  ghost predicate LayerOk(adapters: AdapterRegistry, m: Matrix, endpoints: Endpoints) {
    forall p :: p in m ==> Shaped(m[p]) && Usable(adapters, endpoints, p, m[p]) && Direct(m, m[p])
  }

  ghost predicate DirectOver(m: Matrix, base: Matrix) {
    forall p :: p in m ==> Direct(base, m[p])
  }

  /** Every layer is usable at the provider's endpoints, and no adapter of a layer rests on
      something not native in that layer or in the ones it was checked against. */
  ghost predicate LayersOk(adapters: AdapterRegistry, provider: Option<ProviderConfig>, l: Layers) {
    var endpoints := EndpointsOf(provider);
    && LayerOk(adapters, l.accountModel, endpoints) && LayerOk(adapters, l.providerModel, endpoints)
    && LayerOk(adapters, l.account, endpoints) && LayerOk(adapters, l.provider, endpoints)
    && DirectOver(l.accountModel, l.provider + l.account)
    && DirectOver(l.providerModel, l.provider)
    && DirectOver(l.account, l.provider)
    && (provider.Some? ==> forall p :: p in provider.value.nativeProtocols ==> HasEndpoint(endpoints, p))
  }

  lemma {:induction false} ProviderLayers(adapters: AdapterRegistry, p: ProviderConfig, model: string,
                                          choice: Option<Matrix>)
    requires ProviderOk(adapters, p) && MayChoose(p.overrides, model, choice)
    ensures LayerOk(adapters, OrEmpty(choice), p.endpoints) && DirectOver(OrEmpty(choice), p.matrix)
  {
    if choice.Some? {
      var k :| k in p.overrides && p.overrides[k] == choice.value;
      assert OverrideOk(adapters, p.overrides[k], p.matrix, p.endpoints, p.nativeProtocols);
    }
  }

  lemma {:induction false} AccountLayers(adapters: AdapterRegistry, p: ProviderConfig, a: AccountConfig,
                                         model: string, choice: Option<Matrix>)
    requires AccountOk(adapters, p, a) && MayChoose(a.overrides, model, choice)
    ensures LayerOk(adapters, OrEmpty(choice), p.endpoints) && DirectOver(OrEmpty(choice), p.matrix + a.matrix)
  {
    if choice.Some? {
      var k :| k in a.overrides && a.overrides[k] == choice.value;
      assert OverrideOk(adapters, a.overrides[k], p.matrix + a.matrix, p.endpoints, p.nativeProtocols);
    }
  }

  lemma {:induction false} AcceptedLayers(adapters: AdapterRegistry, c: GatewayConfig, providerId: string,
                                          accountId: Option<string>,
                                          model: string, l: Layers)
    requires ConfigOk(adapters, c)
    requires Sees(FindProvider(c.providers, providerId), FindAccountById(c, accountId), model, l)
    requires FindAccountById(c, accountId).Some? ==> FindAccountById(c, accountId).value.providerId == providerId
    ensures LayersOk(adapters, FindProvider(c.providers, providerId), l)
  {
    var provider, account := FindProvider(c.providers, providerId), FindAccountById(c, accountId);
    if provider.Some? {
      assert ProviderOk(adapters, provider.value);
      var choice :| MayChoose(provider.value.overrides, model, choice) && l.providerModel == OrEmpty(choice);
      ProviderLayers(adapters, provider.value, model, choice);
    }
    if account.Some? {
      var a := account.value;
      var base := ProviderOf(c, a);
      assert AccountOk(adapters, base, a);
      var choice :| MayChoose(a.overrides, model, choice) && l.accountModel == OrEmpty(choice);
      AccountLayers(adapters, base, a, model, choice);
      assert base.endpoints == EndpointsOf(provider) && l.provider == base.matrix;
    }
  }

  /** In an accepted configuration every lookup, for every provider known or not, every
      account of it, every model, protocol and choice of pattern, can be acted on. */
  lemma {:induction false} LookupIsSafe(adapters: AdapterRegistry, c: GatewayConfig, providerId: string,
                                        accountId: Option<string>,
                                        model: string, l: Layers, p: Protocol)
    requires ConfigOk(adapters, c)
    requires Sees(FindProvider(c.providers, providerId), FindAccountById(c, accountId), model, l)
    requires FindAccountById(c, accountId).Some? ==> FindAccountById(c, accountId).value.providerId == providerId
    ensures var provider := FindProvider(c.providers, providerId);
            var d := Effective(l, provider, p);
            Shaped(d) && Usable(adapters, EndpointsOf(provider), p, d)
  {
    AcceptedLayers(adapters, c, providerId, accountId, model, l);
    match Decider(l, p)
    case AccountModel => assert p in l.accountModel;
    case ProviderModel => assert p in l.providerModel;
    case AccountLayer => assert p in l.account;
    case ProviderLayer => assert p in l.provider;
    case Default =>
  }

  /** The layers that were checked when a layer's adapters were: itself and its base. */
  predicate Consulted(target: Layer, source: Layer) {
    match target
    case AccountModel => source.AccountModel? || source.AccountLayer? || source.ProviderLayer?
    case ProviderModel => source.ProviderModel? || source.ProviderLayer?
    case AccountLayer => source.AccountLayer? || source.ProviderLayer?
    case ProviderLayer => source.ProviderLayer?
    case Default => false
  }

  /** No chains of adapters: the source of an effective adapter is itself effectively native
      whenever its layer was consulted, and, where no layer declares it, exactly when the
      provider lists it as native. */
  lemma {:induction false} SourceIsDirect(adapters: AdapterRegistry, c: GatewayConfig, providerId: string,
                                          accountId: Option<string>,
                                          model: string, l: Layers, p: Protocol)
    requires ConfigOk(adapters, c)
    requires Sees(FindProvider(c.providers, providerId), FindAccountById(c, accountId), model, l)
    requires FindAccountById(c, accountId).Some? ==> FindAccountById(c, accountId).value.providerId == providerId
    requires Effective(l, FindProvider(c.providers, providerId), p).mode.DeclaredAdapter?
    ensures var provider := FindProvider(c.providers, providerId);
            var d := Effective(l, provider, p);
            && d.source.Some?
            && (Consulted(Decider(l, p), Decider(l, d.source.value)) ==>
                  Effective(l, provider, d.source.value).mode.DeclaredNative?)
            && (Decider(l, d.source.value).Default? ==>
                  (Effective(l, provider, d.source.value) == NATIVE <==>
                   provider.Some? && d.source.value in provider.value.nativeProtocols))
  {
    AcceptedLayers(adapters, c, providerId, accountId, model, l);
    LookupIsSafe(adapters, c, providerId, accountId, model, l, p);
    var d := Effective(l, FindProvider(c.providers, providerId), p);
    var source := d.source.value;
    match Decider(l, p)
    case AccountModel => assert Direct(l.accountModel, d) && Direct(l.provider + l.account, d);
    case ProviderModel => assert Direct(l.providerModel, d) && Direct(l.provider, d);
    case AccountLayer => assert Direct(l.account, d) && Direct(l.provider, d);
    case ProviderLayer => assert Direct(l.provider, d);
  }

  // ---------------------------------------------------------------------------
  // Exactly when the rule against chained adapters holds.
  // ---------------------------------------------------------------------------

  /** An accepted lookup answers with an adapter decided by layer t, whose source protocol is
      decided by layer s. */
  ghost predicate Chained(adapters: AdapterRegistry, c: GatewayConfig, providerId: string, accountId: Option<string>,
                          model: string, l: Layers, p: Protocol, t: Layer, s: Layer) {
    var provider, account := FindProvider(c.providers, providerId), FindAccountById(c, accountId);
    var d := Effective(l, provider, p);
    && ConfigOk(adapters, c) && Sees(provider, account, model, l)
    && (account.Some? ==> account.value.providerId == providerId)
    && d.mode.DeclaredAdapter? && d.source.Some?
    && Decider(l, p) == t && Decider(l, d.source.value) == s
  }

  /** The source protocol of the answer is itself effectively native. */
  predicate SourceNative(provider: Option<ProviderConfig>, l: Layers, p: Protocol) {
    var d := Effective(l, provider, p);
    d.source.Some? && Effective(l, provider, d.source.value).mode.DeclaredNative?
  }

  /** The rule for one pair of layers, over every configuration, lookup and choice. */
  ghost predicate RuleHolds(adapters: AdapterRegistry, t: Layer, s: Layer) {
    forall c, providerId, accountId, model, l, p ::
      Chained(adapters, c, providerId, accountId, model, l, p, t, s) ==>
        SourceNative(FindProvider(c.providers, providerId), l, p)
  }

  /** The layers of the counterexample: the adapter alone in t, its source switched off in s. */
  function Switched(t: Layer, s: Layer, x: Layer, from: Protocol, to: Protocol, name: string): Matrix {
    if x == t then map[from := Declared(DeclaredAdapter, Some(to), Some(name))]
    else if x == s then map[to := UNSUPPORTED]
    else map[]
  }

  function SwitchedLayers(t: Layer, s: Layer, from: Protocol, to: Protocol, name: string): Layers {
    Layers(Switched(t, s, AccountModel, from, to, name), Switched(t, s, ProviderModel, from, to, name),
           Switched(t, s, AccountLayer, from, to, name), Switched(t, s, ProviderLayer, from, to, name))
  }

  function SwitchedProvider(l: Layers, model: string, to: Protocol): ProviderConfig {
    ProviderConfig("provider", [], map[to := "/v1"], l.provider, map[model := l.providerModel])
  }

  function SwitchedAccount(l: Layers, model: string): AccountConfig {
    AccountConfig("account", "provider", l.account, map[model := l.accountModel])
  }

  lemma {:induction false} SwitchedEndpoint(to: Protocol)
    ensures HasEndpoint(map[to := "/v1"], to)
  {
    assert !Blank("/v1") by {
      assert "/v1"[0] == '/' && !IsSpace('/');
    }
  }

  /** Each layer of the counterexample is acceptable by itself and over what it is checked
      against. */
  lemma {:induction false} SwitchedLayersOk(adapters: AdapterRegistry, name: string, t: Layer, s: Layer)
    requires name in adapters && !Blank(name) && adapters[name].from != adapters[name].to
    requires !t.Default? && !s.Default? && !Consulted(t, s)
    ensures var from, to := adapters[name].from, adapters[name].to;
            var l := SwitchedLayers(t, s, from, to, name);
            && MatrixOk(adapters, l.provider, map[to := "/v1"], [])
            && OverrideOk(adapters, l.providerModel, l.provider, map[to := "/v1"], [])
            && OverrideOk(adapters, l.account, l.provider, map[to := "/v1"], [])
            && OverrideOk(adapters, l.accountModel, l.provider + l.account, map[to := "/v1"], [])
  {
    SwitchedEndpoint(adapters[name].to);
  }

  lemma {:induction false} SwitchedConfigOk(adapters: AdapterRegistry, l: Layers, model: string, to: Protocol)
    requires MatrixOk(adapters, l.provider, map[to := "/v1"], [])
    requires OverrideOk(adapters, l.providerModel, l.provider, map[to := "/v1"], [])
    requires OverrideOk(adapters, l.account, l.provider, map[to := "/v1"], [])
    requires OverrideOk(adapters, l.accountModel, l.provider + l.account, map[to := "/v1"], [])
    ensures var p, a := SwitchedProvider(l, model, to), SwitchedAccount(l, model);
            ConfigOk(adapters, GatewayConfig([p], [a], [])) && Sees(Some(p), Some(a), model, l)
  {
    var p, a := SwitchedProvider(l, model, to), SwitchedAccount(l, model);
    var c := GatewayConfig([p], [a], []);
    assert ProviderOk(adapters, p);
    assert ProviderOf(c, a) == p;
    assert AccountOk(adapters, p, a);
    assert MayChoose(p.overrides, model, Some(l.providerModel)) && MayChoose(a.overrides, model, Some(l.accountModel));
  }

  /** Every pair of declared layers that is not consulted does fail: whatever adapter is
      registered and whatever the model, a configuration is accepted in which layer t answers
      with the adapter and layer s has switched its source protocol off. */
  lemma {:induction false} UnconsultedLayerBreaksChain(adapters: AdapterRegistry, name: string, model: string,
                                                       t: Layer, s: Layer)
    returns (c: GatewayConfig, l: Layers)
    requires name in adapters && !Blank(name) && adapters[name].from != adapters[name].to
    requires !t.Default? && !s.Default? && !Consulted(t, s)
    ensures Chained(adapters, c, "provider", Some("account"), model, l, adapters[name].from, t, s)
    ensures Effective(l, FindProvider(c.providers, "provider"), adapters[name].from)
         == Declared(DeclaredAdapter, Some(adapters[name].to), Some(name))
    ensures Effective(l, FindProvider(c.providers, "provider"), adapters[name].to) == UNSUPPORTED
  {
    var from, to := adapters[name].from, adapters[name].to;
    l := SwitchedLayers(t, s, from, to, name);
    c := GatewayConfig([SwitchedProvider(l, model, to)], [SwitchedAccount(l, model)], []);
    SwitchedLayersOk(adapters, name, t, s);
    SwitchedConfigOk(adapters, l, model, to);
    assert FindProvider(c.providers, "provider") == Some(c.providers[0]);
    assert FindAccountById(c, Some("account")) == Some(c.accounts[0]);
  }

  /** The exact theorem: where some adapter is registered, the source of every effective adapter
      decided by layer t with its source decided by layer s is effectively native, over all
      accepted configurations, if and only if s was consulted when t was checked. */
  lemma {:induction false} RuleHoldsIffConsulted(adapters: AdapterRegistry, name: string, t: Layer, s: Layer)
    requires name in adapters && !Blank(name) && adapters[name].from != adapters[name].to
    requires !t.Default? && !s.Default?
    ensures RuleHolds(adapters, t, s) <==> Consulted(t, s)
  {
    if Consulted(t, s) {
      forall c, providerId, accountId, model, l, p | Chained(adapters, c, providerId, accountId, model, l, p, t, s)
        ensures SourceNative(FindProvider(c.providers, providerId), l, p)
      {
        SourceIsDirect(adapters, c, providerId, accountId, model, l, p);
      }
    } else {
      var c, l := UnconsultedLayerBreaksChain(adapters, name, "model", t, s);
      assert !SourceNative(FindProvider(c.providers, "provider"), l, adapters[name].from);
    }
  }
}
