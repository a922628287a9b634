/** What every deploy keeps, and what a successful one achieves. */
module DeployProperties {
  import opened Common
  import opened Json
  import opened Sorting
  import opened Naming
  import opened Bindings
  import opened GatewayPatch
  import opened Deploy
  import Migrations

  // -------------------------------------------- targets exist, in every run

  /** Every service binding of the upload targeted a script the account had. */
  predicate TargetsExist(u: Upload) {
    forall b :: b in u.services ==> b.service in u.known
  }

  predicate Sound(p: Progress) {
    p.available <= p.scripts.Keys && forall u :: u in p.log ==> TargetsExist(u)
  }

  lemma UploadedIsSound(env: Env, p: Progress, b: Prepared, pass: nat, loaders: bool)
    requires Sound(p)
    ensures Sound(Uploaded(env, p, b, pass, loaders))
    ensures env.answers(|p.log|).Accepted? ==> Script(env, b.component) in Uploaded(env, p, b, pass, loaders).scripts
    ensures Uploaded(env, p, b, pass, loaders).available == p.available
  {
    hide Metadata, UploadMigrations;
    TargetsAvailable(b.component, b.config.services, env.instance, p.available);
    assert TargetsExist(Sent(env, p, b, pass, loaders));
  }

  lemma FirstUploadIsSound(env: Env, p: Progress, b: Prepared)
    requires Sound(p)
    ensures Sound(FirstUpload(env, p, b))
  {
    hide Uploaded;
    UploadedIsSound(env, p, b, 1, LoadersWanted(p, b));
    UploadedIsSound(env, Uploaded(env, p, b, 1, LoadersWanted(p, b)), b, 1, false);
  }

  lemma {:induction false} FirstPassIsSound(env: Env, start: Progress, bundles: seq<Prepared>)
    requires Sound(start)
    ensures Sound(FirstPass(env, start, bundles))
  {
    if bundles != [] {
      FirstPassIsSound(env, start, bundles[..|bundles| - 1]);
      FirstUploadIsSound(env, FirstPass(env, start, bundles[..|bundles| - 1]), bundles[|bundles| - 1]);
    }
  }

  lemma {:induction false} SecondPassIsSound(env: Env, start: Progress, bundles: seq<Prepared>)
    requires Sound(start)
    ensures Sound(SecondPass(env, start, bundles))
  {
    hide Uploaded;
    if bundles != [] {
      SecondPassIsSound(env, start, bundles[..|bundles| - 1]);
      var p, b := SecondPass(env, start, bundles[..|bundles| - 1]), bundles[|bundles| - 1];
      UploadedIsSound(env, p, b, 2, LoadersWanted(p, b));
    }
  }

  lemma ReconcileIsSound(env: Env, p: Progress, components: seq<string>)
    requires Sound(p)
    ensures Sound(ReconcileGateway(env, p, components).1)
  {
    hide BindingPatch, WritableAnnotations, Applied, TargetsExist;
  }

  /** In every run, failed or not, no upload binds a worker that does not exist. */
  lemma EveryTargetExists(env: Env, components: seq<string>)
    ensures Sound(Deployed(env, components).1)
  {
    hide FirstPass, SecondPass, Prepare, ReconcileGateway;
    var start := StartOf(env, components);
    if Prepare(env, components).Ok? {
      var bundles := Prepare(env, components).value;
      FirstPassIsSound(env, start, bundles);
      SecondPassIsSound(env, FirstPass(env, start, bundles), bundles);
      ReconcileIsSound(env, Uploads(env, components, bundles), components);
    }
  }

  // ---------------------------------------------------- other workers untouched

  function ScriptsOf(env: Env, bundles: seq<Prepared>): set<string> {
    if bundles == [] then {}
    else ScriptsOf(env, bundles[..|bundles| - 1]) + {Script(env, bundles[|bundles| - 1].component)}
  }

  predicate SameScript(p: Progress, q: Progress, s: string) {
    (s in p.scripts <==> s in q.scripts) && (s in p.scripts ==> p.scripts[s] == q.scripts[s])
  }

  lemma FirstUploadTouches(env: Env, p: Progress, b: Prepared, s: string)
    requires s != Script(env, b.component)
    ensures SameScript(p, FirstUpload(env, p, b), s)
  {
    hide Metadata, Services, UploadMigrations;
  }

  lemma SecondUploadTouches(env: Env, p: Progress, b: Prepared, s: string)
    requires s != Script(env, b.component)
    ensures SameScript(p, SecondUpload(env, p, b), s)
  {
    hide Metadata, Services, UploadMigrations;
  }

  lemma {:induction false} FirstPassTouches(env: Env, start: Progress, bundles: seq<Prepared>, s: string)
    requires s !in ScriptsOf(env, bundles)
    ensures SameScript(start, FirstPass(env, start, bundles), s)
  {
    hide FirstUpload, Script;
    if bundles != [] {
      var n := |bundles| - 1;
      FirstPassTouches(env, start, bundles[..n], s);
      FirstUploadTouches(env, FirstPass(env, start, bundles[..n]), bundles[n], s);
    }
  }

  lemma {:induction false} SecondPassTouches(env: Env, start: Progress, bundles: seq<Prepared>, s: string)
    requires s !in ScriptsOf(env, bundles)
    ensures SameScript(start, SecondPass(env, start, bundles), s)
  {
    hide SecondUpload, Script;
    if bundles != [] {
      var n := |bundles| - 1;
      SecondPassTouches(env, start, bundles[..n], s);
      SecondUploadTouches(env, SecondPass(env, start, bundles[..n]), bundles[n], s);
    }
  }

  lemma {:induction false} ScriptsOfMember(env: Env, bundles: seq<Prepared>, s: string)
    ensures s in ScriptsOf(env, bundles) <==> exists b :: b in bundles && Script(env, b.component) == s
  {
    if bundles != [] {
      var n := |bundles| - 1;
      ScriptsOfMember(env, bundles[..n], s);
      assert forall b :: b in bundles <==> b in bundles[..n] || b == bundles[n];
    }
  }

  // --------------------------------------------------------- what Prepare yields

  lemma {:induction false} LoadYields(env: Env, components: seq<string>)
    requires Load(env, components).Ok?
    ensures var r := Load(env, components).value;
      |r| == |components| &&
      forall i :: 0 <= i < |r| ==> r[i].component == components[i] && env.load(components[i]) == Some(r[i].config)
  {
    if components != [] {
      LoadYields(env, components[..|components| - 1]);
    }
  }

  lemma {:induction false} NoneUnsupported(instance: string, components: seq<string>)
    requires FirstUnsupported(instance, components).None?
    ensures forall c :: c in components ==> Supported(c)
  {
    if components != [] {
      SupportedHasScript(instance, components[0]);
      NoneUnsupported(instance, components[1..]);
      assert forall c :: c in components ==> c == components[0] || c in components[1..];
    }
  }

  /** The prepared bundles are those of the components, each with its own configuration. */
  ghost predicate BundlesOf(env: Env, components: seq<string>, bundles: seq<Prepared>) {
    && (forall b :: b in bundles ==>
          b.component in components && Supported(b.component) && env.load(b.component) == Some(b.config))
    && (forall c :: c in components ==> exists b :: b in bundles && b.component == c)
  }

  lemma SortedHasSameBundles(loaded: seq<Prepared>, b: Prepared)
    ensures b in SortByKey(loaded, Order) <==> b in loaded
  {
    SortByKeyCorrect(loaded, Order);
    assert b in multiset(SortByKey(loaded, Order)) <==> b in multiset(loaded);
  }

  /** One bundle per selected component, in deploy order. */
  lemma PrepareYields(env: Env, components: seq<string>)
    requires Prepare(env, components).Ok?
    ensures var bundles := Prepare(env, components).value;
      && BundlesOf(env, components, bundles)
      && |bundles| == |components|
      && SortedByKey(bundles, Order)
      && (Distinct(components) ==> Distinct(bundles))
  {
    hide Load, FirstUnsupported, SortByKey, Script, SelectedAdapters;
    var loaded := Load(env, components).value;
    var bundles := SortByKey(loaded, Order);
    LoadYields(env, components);
    NoneUnsupported(env.instance, components);
    SortByKeyCorrect(loaded, Order);
    assert |multiset(bundles)| == |multiset(loaded)|;
    if Distinct(components) {
      SortKeepsDistinct(loaded, Order);
    }
    forall b ensures b in bundles <==> b in loaded {
      SortedHasSameBundles(loaded, b);
    }
    forall c | c in components ensures exists b :: b in bundles && b.component == c {
      var i :| 0 <= i < |components| && components[i] == c;
      assert loaded[i] in loaded;
    }
  }

  /** In an accepted instance, a worker name determines its bundle. */
  lemma ScriptDeterminesBundle(env: Env, components: seq<string>, bundles: seq<Prepared>, b: Prepared, c: Prepared)
    requires ValidInstance(env.instance) && BundlesOf(env, components, bundles)
    requires b in bundles && c in bundles && Script(env, b.component) == Script(env, c.component)
    ensures b == c
  {
    SupportedHasScript(env.instance, b.component);
    SupportedHasScript(env.instance, c.component);
    ScriptNamesInjective(env.instance, b.component, env.instance, c.component);
  }

  lemma ReconcileTouchesTheGateway(env: Env, p: Progress, components: seq<string>, s: string)
    requires s != Script(env, GATEWAY)
    ensures SameScript(p, ReconcileGateway(env, p, components).1, s)
  {
    hide BindingPatch, WritableAnnotations, Applied, SelectedAdapters;
  }

  /** A deploy of one instance, failed or not, leaves every other instance's workers alone. */
  lemma OtherInstancesUntouched(env: Env, components: seq<string>, j: string, d: string)
    requires ValidInstance(env.instance) && ValidInstance(j) && j != env.instance && Supported(d)
    ensures SameScript(StartOf(env, components), Deployed(env, components).1, OrElse(ScriptName(j, d), ""))
  {
    hide FirstPass, SecondPass, Prepare, ReconcileGateway;
    SupportedHasScript(j, d);
    var s := ScriptName(j, d).value;
    if Prepare(env, components).Ok? {
      var bundles := Prepare(env, components).value;
      PrepareYields(env, components);
      ScriptsOfMember(env, bundles, s);
      forall b | b in bundles ensures Script(env, b.component) != s {
        SupportedHasScript(env.instance, b.component);
        if Script(env, b.component) == s {
          ScriptNamesInjective(env.instance, b.component, j, d);
        }
      }
      FirstPassTouches(env, StartOf(env, components), bundles, s);
      SecondPassTouches(env, FirstPass(env, StartOf(env, components), bundles), bundles, s);
      assert AVAILABLE_COMPONENTS[1] == GATEWAY;
      if Script(env, GATEWAY) == s {
        ScriptNamesInjective(env.instance, GATEWAY, j, d);
      }
      ReconcileTouchesTheGateway(env, Uploads(env, components, bundles), components, s);
    }
  }

  // ------------------------------------------------------- the final bindings

  lemma {:induction false} FirstPassAvailable(env: Env, start: Progress, bundles: seq<Prepared>)
    requires !FirstPass(env, start, bundles).failed
    ensures !start.failed
    ensures FirstPass(env, start, bundles).available == start.available + ScriptsOf(env, bundles)
  {
    hide Metadata, Services, UploadMigrations;
    if bundles != [] {
      FirstPassAvailable(env, start, bundles[..|bundles| - 1]);
    }
  }

  lemma {:induction false} SecondPassKeeps(env: Env, start: Progress, bundles: seq<Prepared>)
    ensures SecondPass(env, start, bundles).available == start.available
    ensures SecondPass(env, start, bundles).codemode == start.codemode
  {
    hide Metadata, Services, UploadMigrations;
    if bundles != [] {
      SecondPassKeeps(env, start, bundles[..|bundles| - 1]);
    }
  }

  predicate Bound(env: Env, p: Progress, b: Prepared) {
    Script(env, b.component) in p.scripts &&
    p.scripts[Script(env, b.component)].bindings == Metadata(env, b, p.available, LoadersWanted(p, b))
  }

  /** After a complete second pass every worker's bindings are those computed from all
      available workers, whatever order the uploads came in. */
  lemma {:induction false} SecondPassBinds(env: Env, components: seq<string>,
      all: seq<Prepared>, start: Progress, bundles: seq<Prepared>)
    requires ValidInstance(env.instance) && BundlesOf(env, components, all)
    requires forall b :: b in bundles ==> b in all
    requires !SecondPass(env, start, bundles).failed
    ensures forall b :: b in bundles ==> Bound(env, SecondPass(env, start, bundles), b)
  {
    hide Metadata, Services, UploadMigrations, BundlesOf;
    if bundles != [] {
      var n := |bundles| - 1;
      var last := bundles[n];
      SecondPassBinds(env, components, all, start, bundles[..n]);
      SecondPassKeeps(env, start, bundles[..n]);
      var p := SecondPass(env, start, bundles[..n]);
      forall b | b in bundles ensures Bound(env, SecondPass(env, start, bundles), b) {
        if Script(env, b.component) == Script(env, last.component) {
          ScriptDeterminesBundle(env, components, all, b, last);
        } else {
          assert b in bundles[..n];
          assert Bound(env, p, b);
        }
      }
    }
  }

  /** The workers a deploy of these components may bind. */
  function Reachable(env: Env, components: seq<string>): set<string> {
    env.existing.Keys + set c | c in components :: Script(env, c)
  }

  /** For any order of the selected bundles, a run that uploads them all leaves each worker with
      the bindings that the set of existing and selected workers determines. */
  lemma FinalBindingsIgnoreOrder(env: Env, components: seq<string>, bundles: seq<Prepared>, b: Prepared)
    requires ValidInstance(env.instance) && BundlesOf(env, components, bundles) && b in bundles
    requires !Uploads(env, components, bundles).failed
    ensures var p := Uploads(env, components, bundles);
      && p.available == Reachable(env, components)
      && Script(env, b.component) in p.scripts
      && p.scripts[Script(env, b.component)].bindings
           == Metadata(env, b, Reachable(env, components), LoadersWanted(p, b))
  {
    hide FirstPass, SecondPass, Metadata;
    var start := StartOf(env, components);
    var first := FirstPass(env, start, bundles);
    FirstPassAvailable(env, start, bundles);
    SecondPassKeeps(env, first, bundles);
    SecondPassBinds(env, components, bundles, first, bundles);
    assert Bound(env, SecondPass(env, first, bundles), b);
    forall s ensures s in ScriptsOf(env, bundles) <==> s in set c | c in components :: Script(env, c) {
      ScriptsOfMember(env, bundles, s);
    }
    assert ScriptsOf(env, bundles) == set c | c in components :: Script(env, c);
  }

  // ------------------------------------------------------- links in both directions

  /** The worker binds the instance's gateway through its public entrypoint. */
  ghost predicate BindsGateway(bs: seq<Json>, instance: string) {
    exists k :: 0 <= k < |bs| && HasName(bs[k], "GATEWAY") && IsLink(bs[k], instance, "GatewayEntrypoint")
  }

  lemma ServiceInMetadata(env: Env, b: Prepared, available: set<string>, loaders: bool, s: ServiceBinding)
    requires s in Services(env, b, available)
    ensures ServiceBindingJson(s) in Metadata(env, b, available, loaders)
  {
    hide Services;
    var services := Services(env, b, available);
    var i :| 0 <= i < |services| && services[i] == s;
    var mapped := Mapped(services, ServiceBindingJson);
    assert mapped[i] == ServiceBindingJson(s);
    assert ServiceBindingJson(s) in mapped;
    assert ServiceBindingJson(s) in b.config.leading + mapped;
  }

  /** A configured service without an environment is uploaded as a link. */
  lemma ServiceIsLink(bs: seq<Json>, name: string, service: string, entrypoint: string) returns (k: nat)
    requires ServiceBindingJson(ServiceBinding(name, service, None, Some(entrypoint))) in bs
    ensures k < |bs| && HasName(bs[k], name) && IsLink(bs[k], service, entrypoint)
  {
    var s := ServiceBinding(name, service, None, Some(entrypoint));
    k :| 0 <= k < |bs| && bs[k] == ServiceBindingJson(s);
    BindingFields(s, "");
  }

  lemma {:induction false} SelectedComponent(components: seq<string>, a: Adapter)
    requires a in SelectedAdapters(components)
    ensures a in ADAPTERS && a.component in components && Supported(a.component) && a.component != GATEWAY
  {
    if AdapterOf(components[0]) == Some(a) {
      assert a.component == components[0];
      assert AVAILABLE_COMPONENTS[2] == WHATSAPP && AVAILABLE_COMPONENTS[3] == DISCORD &&
          AVAILABLE_COMPONENTS[4] == TELEGRAM;
    } else {
      SelectedComponent(components[1..], a);
    }
  }

  lemma AdapterUploadBindsGateway(env: Env, b: Prepared, available: set<string>, loaders: bool)
    requires AdapterOf(b.component).Some? && env.instance in available
    ensures BindsGateway(Metadata(env, b, available, loaders), env.instance)
  {
    hide Metadata, ServiceBindings;
    AdapterBindsGateway(b.component, b.config.services, env.instance, available);
    var services := Services(env, b, available);
    LookupIsMember(services, "GATEWAY");
    var s := ServiceBinding("GATEWAY", env.instance, None, Some(GATEWAY_ENTRYPOINT));
    ServiceInMetadata(env, b, available, loaders, s);
    var k := ServiceIsLink(Metadata(env, b, available, loaders), "GATEWAY", env.instance, GATEWAY_ENTRYPOINT);
  }

  lemma GatewayUploadBindsAdapter(env: Env, b: Prepared, available: set<string>, loaders: bool, a: Adapter)
    requires b.component == GATEWAY && a in ADAPTERS && Script(env, a.component) in available
    ensures Binds(Metadata(env, b, available, loaders), a, env.instance)
  {
    hide Metadata, ServiceBindings;
    GatewayBindsAdapter(b.config.services, env.instance, available, a);
    var services := Services(env, b, available);
    LookupIsMember(services, a.gatewayBinding);
    var s := ServiceBinding(a.gatewayBinding, Script(env, a.component), None, Some(a.entrypoint));
    ServiceInMetadata(env, b, available, loaders, s);
    var bs := Metadata(env, b, available, loaders);
    var k := ServiceIsLink(bs, a.gatewayBinding, Script(env, a.component), a.entrypoint);
  }

  ghost predicate LinkedBothWays(env: Env, scripts: map<string, Live>, a: Adapter) {
    && Script(env, a.component) in scripts
    && BindsGateway(scripts[Script(env, a.component)].bindings, env.instance)
    && env.instance in scripts
    && Binds(scripts[env.instance].bindings, a, env.instance)
  }

  /** The adapter's side after the uploads. */
  lemma UploadedAdapterIsLinked(env: Env, components: seq<string>, a: Adapter)
    requires ValidInstance(env.instance) && Prepare(env, components).Ok? && a in SelectedAdapters(components)
    requires !Uploads(env, components, Prepare(env, components).value).failed
    ensures var p := Uploads(env, components, Prepare(env, components).value);
      && Script(env, a.component) in p.scripts
      && BindsGateway(p.scripts[Script(env, a.component)].bindings, env.instance)
      && (GATEWAY in components ==>
            env.instance in p.scripts && Binds(p.scripts[env.instance].bindings, a, env.instance))
  {
    hide Uploads, Metadata, Load;
    var bundles := Prepare(env, components).value;
    PrepareYields(env, components);
    SelectedComponent(components, a);
    AdapterTargetIsInstanceScript(env.instance, a);
    var b :| b in bundles && b.component == a.component;
    var p := Uploads(env, components, bundles);
    FinalBindingsIgnoreOrder(env, components, bundles, b);
    assert Script(env, GATEWAY) == env.instance;
    assert env.instance in Reachable(env, components);
    AdapterUploadBindsGateway(env, b, Reachable(env, components), LoadersWanted(p, b));
    if GATEWAY in components {
      var g :| g in bundles && g.component == GATEWAY;
      FinalBindingsIgnoreOrder(env, components, bundles, g);
      GatewayUploadBindsAdapter(env, g, Reachable(env, components), LoadersWanted(p, g), a);
    }
  }

  /** Reconciling cannot succeed on settings without a binding list. */
  lemma ListsItsBindings(live: seq<Json>, reply: SettingsReply, components: seq<string>, instance: string, a: Adapter)
    requires a in SelectedAdapters(components)
    ensures reply.listsBindings ==> IsSettings(Settings(live, reply), live)
    ensures BindingPatch(Settings(live, reply), components, instance).Ok? ==> reply.listsBindings
    ensures Desired(SelectedAdapters(components), instance) != map[]
  {
    hide Desired, SelectedAdapters;
    SelectedAreAdapters(components);
    DesiredOfAdapter(SelectedAdapters(components), instance, a);
  }

  /** The gateway's side when it is patched in place; no other worker changes. */
  lemma ReconciledSideBinds(env: Env, p: Progress, components: seq<string>, a: Adapter)
    requires ReconcileGateway(env, p, components).0.Ok? && a in SelectedAdapters(components) && GATEWAY !in components
    requires env.instance in env.existing && env.instance in p.scripts
    ensures var q := ReconcileGateway(env, p, components).1;
      && env.instance in q.scripts && Binds(q.scripts[env.instance].bindings, a, env.instance)
      && Resolves(q.scripts[env.instance].bindings, a.gatewayBinding, Script(env, a.component), a.entrypoint)
      && forall s :: s != env.instance ==> SameScript(p, q, s)
  {
    hide Binds, Resolves, BindingPatch, Applied, SelectedAdapters;
    var live := p.scripts[env.instance].bindings;
    assert Script(env, GATEWAY) == env.instance;
    var settings := Settings(live, env.settings.value);
    ListsItsBindings(live, env.settings.value, components, env.instance, a);
    ReconciledGatewayBinds(settings, live, components, env.instance, a);
  }

  /** After a successful deploy every selected adapter and its instance's gateway bind each
      other, whether the gateway was uploaded as well or patched in place. */
  lemma DeployLinksBothWays(env: Env, components: seq<string>, a: Adapter)
    requires ValidInstance(env.instance) && Deployed(env, components).0.Ok? && a in SelectedAdapters(components)
    ensures LinkedBothWays(env, Deployed(env, components).1.scripts, a)
  {
    hide Uploads, ReconcileGateway, BindsGateway, Binds, Load, FirstUnsupported, SelectedAdapters;
    var bundles := Prepare(env, components).value;
    var p := Uploads(env, components, bundles);
    UploadedAdapterIsLinked(env, components, a);
    if GATEWAY in components {
      NothingToReconcile(env, p, components);
    } else {
      SelectedComponent(components, a);
      UploadsKeepScripts(env, components, bundles);
      assert Script(env, GATEWAY) == env.instance;
      ReconciledSideBinds(env, p, components, a);
      AdapterIsNotItsGateway(env.instance, a);
      assert SameScript(p, ReconcileGateway(env, p, components).1, Script(env, a.component));
    }
  }

  lemma AdapterIsNotItsGateway(instance: string, a: Adapter)
    requires ValidInstance(instance) && Supported(a.component) && a.component != GATEWAY
    ensures OrElse(ScriptName(instance, a.component), "") != instance
  {
    SupportedHasScript(instance, a.component);
    assert AVAILABLE_COMPONENTS[1] == GATEWAY;
    if ScriptName(instance, a.component) == ScriptName(instance, GATEWAY) {
      ScriptNamesInjective(instance, a.component, instance, GATEWAY);
    }
  }

  // ------------------------------------------------------- when a deploy succeeds

  lemma {:induction false} LoadSucceedsExactly(env: Env, components: seq<string>)
    ensures Load(env, components).Ok? <==> forall c :: c in components ==> env.load(c).Some?
  {
    if components != [] {
      var n := |components| - 1;
      LoadSucceedsExactly(env, components[..n]);
      assert components == components[..n] + [components[n]];
    }
  }

  lemma {:induction false} SupportedHasNoneUnsupported(instance: string, components: seq<string>)
    requires forall c :: c in components ==> Supported(c)
    ensures FirstUnsupported(instance, components).None?
  {
    if components != [] {
      SupportedHasScript(instance, components[0]);
      SupportedHasNoneUnsupported(instance, components[1..]);
    }
  }

  /** The preliminary checks pass exactly when something is selected, every selected component
      has a name and a bundle, adapters have a gateway and a selected gateway has its ripgit. */
  lemma PrepareSucceedsExactly(env: Env, components: seq<string>)
    ensures Prepare(env, components).Ok? <==>
              && components != [] && env.scriptsListed && env.bucketsReady
              && (forall c :: c in components ==> Supported(c) && env.load(c).Some?)
              && (SelectedAdapters(components) != [] ==> GATEWAY in components || Script(env, GATEWAY) in env.existing)
              && (GATEWAY in components ==> RIPGIT in components || Script(env, RIPGIT) in env.existing)
  {
    hide SortByKey, Script, Supported, SelectedAdapters;
    LoadSucceedsExactly(env, components);
    if FirstUnsupported(env.instance, components).None? {
      NoneUnsupported(env.instance, components);
    } else if forall c :: c in components ==> Supported(c) {
      SupportedHasNoneUnsupported(env.instance, components);
    }
  }

  /** Everything uploaded has its assets and complete metadata, and is accepted. */
  ghost predicate AllAccepted(env: Env, bundles: seq<Prepared>) {
    && (forall n: nat :: env.answers(n).Accepted?)
    && (forall b :: b in bundles ==> b.config.complete && env.assetsSynced(b.component))
  }

  lemma {:induction false} AcceptedFirstPass(env: Env, start: Progress, bundles: seq<Prepared>)
    requires !start.failed && AllAccepted(env, bundles)
    ensures !FirstPass(env, start, bundles).failed
  {
    hide Metadata, Services, UploadMigrations;
    if bundles != [] {
      AcceptedFirstPass(env, start, bundles[..|bundles| - 1]);
    }
  }

  lemma {:induction false} AcceptedSecondPass(env: Env, start: Progress, bundles: seq<Prepared>)
    requires !start.failed && AllAccepted(env, bundles)
    ensures !SecondPass(env, start, bundles).failed
  {
    hide Metadata, Services, UploadMigrations;
    if bundles != [] {
      AcceptedSecondPass(env, start, bundles[..|bundles| - 1]);
    }
  }

  /** The live gateway can be brought up to date. */
  ghost predicate CanReconcile(env: Env, live: seq<Json>, components: seq<string>) {
    && env.settings.Some? && env.settings.value.listsBindings
    && DistinctNames(live)
    && (UpToDate(live, Desired(SelectedAdapters(components), env.instance)) ||
        (AnnotationsWellFormed(Settings(live, env.settings.value)) && env.settingsPatch.Accepted?))
  }

  lemma ReconcileSucceedsExactly(env: Env, p: Progress, components: seq<string>)
    requires GATEWAY !in components && SelectedAdapters(components) != []
    requires env.instance in env.existing && env.instance in p.scripts
    ensures ReconcileGateway(env, p, components).0.Ok? <==>
              CanReconcile(env, p.scripts[env.instance].bindings, components)
  {
    hide BindingPatch, Applied, DistinctNames, UpToDate, Settings, SelectedAdapters, Desired;
    hide WritableAnnotations, AnnotationsWellFormed;
    assert Script(env, GATEWAY) == env.instance;
    if env.settings.Some? {
      var live := p.scripts[env.instance].bindings;
      var settings := Settings(live, env.settings.value);
      ListsItsBindings(live, env.settings.value, components, env.instance, SelectedAdapters(components)[0]);
      AnnotationsAreCopied(settings);
      if env.settings.value.listsBindings {
        UpToDateIsNoPatch(settings, live, components, env.instance);
        ReconcileSucceedsOnDistinct(settings, live, components, env.instance);
      }
    }
  }

  lemma ReconcileSucceedsOnDistinct(settings: Json, live: seq<Json>, components: seq<string>, instance: string)
    requires IsSettings(settings, live) && Desired(SelectedAdapters(components), instance) != map[]
    ensures BindingPatch(settings, components, instance).Ok? <==> DistinctNames(live)
  {
    hide BindingPatch, DistinctNames;
    ReconcileFailsExactlyOnBadLists(settings, components, instance);
  }

  lemma GatewayStaysAsFound(env: Env, components: seq<string>)
    requires ValidInstance(env.instance) && Prepare(env, components).Ok? && GATEWAY !in components
    ensures SameScript(StartOf(env, components), Uploads(env, components, Prepare(env, components).value), env.instance)
  {
    hide FirstPass, SecondPass, Prepare;
    var bundles := Prepare(env, components).value;
    PrepareYields(env, components);
    ScriptsOfMember(env, bundles, env.instance);
    assert AVAILABLE_COMPONENTS[1] == GATEWAY;
    forall b | b in bundles ensures Script(env, b.component) != env.instance {
      SupportedHasScript(env.instance, b.component);
      if ScriptName(env.instance, b.component) == ScriptName(env.instance, GATEWAY) {
        ScriptNamesInjective(env.instance, b.component, env.instance, GATEWAY);
      }
    }
    FirstPassTouches(env, StartOf(env, components), bundles, env.instance);
    SecondPassTouches(env, FirstPass(env, StartOf(env, components), bundles), bundles, env.instance);
  }

  /** When the checks pass and every upload is accepted, a deploy succeeds exactly when the
      gateway it leaves in place, if it has adapters to link to one, can be brought up to date. */
  lemma DeploySucceedsExactly(env: Env, components: seq<string>)
    requires ValidInstance(env.instance) && Prepare(env, components).Ok?
    requires AllAccepted(env, Prepare(env, components).value)
    ensures Deployed(env, components).0.Ok? <==>
              (GATEWAY !in components && SelectedAdapters(components) != [] ==>
                 env.instance in env.existing && CanReconcile(env, env.existing[env.instance].bindings, components))
  {
    hide FirstPass, SecondPass, ReconcileGateway, CanReconcile, AllAccepted, Load, FirstUnsupported;
    var bundles := Prepare(env, components).value;
    var start := StartOf(env, components);
    AcceptedFirstPass(env, start, bundles);
    AcceptedSecondPass(env, FirstPass(env, start, bundles), bundles);
    var p := Uploads(env, components, bundles);
    if GATEWAY in components || SelectedAdapters(components) == [] {
      NothingToReconcile(env, p, components);
    } else {
      assert Script(env, GATEWAY) == env.instance;
      GatewayStaysAsFound(env, components);
      ReconcileSucceedsExactly(env, p, components);
    }
  }

  /** A successful deploy of a gateway returns its workers.dev address when the account's
      subdomain is known, and no other deploy returns one. */
  lemma ReportedUrlIsTheGateways(env: Env, components: seq<string>)
    requires Deployed(env, components).0.Ok?
    ensures var url := Deployed(env, components).0.value;
      && (url.Some? <==> GATEWAY in components && env.subdomain.Some?)
      && (url.Some? ==>
            ("https://" + env.instance + ".") <= url.value && EndsWith(url.value, ".workers.dev"))
  {
    hide Uploads, Prepare, ReconcileGateway, Trim, TrimDots;
    if GATEWAY in components && env.subdomain.Some? {
      var domain, host := WorkersDevDomain(env.subdomain.value), "https://" + env.instance + ".";
      var trimmed := TrimDots(Trim(env.subdomain.value));
      if !EndsWith(trimmed, ".workers.dev") {
        EndsWithItsEnd(trimmed, ".workers.dev");
      }
      EndsWithLonger(host, domain, ".workers.dev");
      assert WorkersDevUrl(env.instance, env.subdomain.value) == host + domain;
    }
  }

  predicate AllDots(s: string) {
    forall i :: 0 <= i < |s| ==> s[i] == '.'
  }

  lemma {:induction false} TrimDotsOf(core: string, dots: string)
    requires AllDots(dots) && (core != "" ==> core[|core| - 1] != '.')
    ensures TrimDots(core + dots) == core
  {
    if dots == "" {
      assert core + dots == core;
    } else {
      var s := core + dots;
      assert s[..|s| - 1] == core + dots[..|dots| - 1];
      TrimDotsOf(core, dots[..|dots| - 1]);
    }
  }

  /** The domain is the subdomain without the whitespace around it and the dots after it, on
      workers.dev, which is not added twice. */
  lemma WorkersDevDomainOf(a: string, core: string, dots: string, b: string)
    requires AllWhitespace(a) && AllWhitespace(b) && AllDots(dots)
    requires core != "" && !IsWhitespace(core[0]) && !IsWhitespace(core[|core| - 1]) && core[|core| - 1] != '.'
    ensures WorkersDevDomain(a + core + dots + b)
         == if EndsWith(core, ".workers.dev") then core else core + ".workers.dev"
  {
    hide Trim, TrimDots, EndsWith;
    assert a + core + dots + b == a + (core + dots) + b;
    TrimOf(a, core + dots, b);
    TrimDotsOf(core, dots);
  }

  lemma EndsWithItsEnd(s: string, suffix: string)
    ensures EndsWith(s + suffix, suffix)
  {
  }

  lemma EndsWithLonger(p: string, s: string, suffix: string)
    requires EndsWith(s, suffix)
    ensures EndsWith(p + s, suffix)
  {
    assert (p + s)[|p + s| - |suffix|..] == s[|s| - |suffix|..];
  }

  // ------------------------------------------------------------------ CodeMode

  /** Whether the last accepted gateway upload of a pass included the worker loaders. */
  function LastLoaders(log: seq<Upload>, pass: nat): Option<bool> {
    if log == [] then None
    else
      var u := log[|log| - 1];
      if u.pass == pass && u.component == GATEWAY && u.answer.Accepted? then Some(u.loaders)
      else LastLoaders(log[..|log| - 1], pass)
  }

  function Rejections(log: seq<Upload>): nat {
    if log == [] then 0
    else Rejections(log[..|log| - 1]) + if log[|log| - 1].answer.Accepted? then 0 else 1
  }

  lemma LogGrows(env: Env, p: Progress, b: Prepared, pass: nat, loaders: bool)
    ensures var q, accepted := Uploaded(env, p, b, pass, loaders), env.answers(|p.log|).Accepted?;
      && Rejections(q.log) == Rejections(p.log) + (if accepted then 0 else 1)
      && (forall k: nat :: LastLoaders(q.log, k) ==
            if k == pass && b.component == GATEWAY && accepted then Some(loaders) else LastLoaders(p.log, k))
      && |q.log| == |p.log| + 1 && q.codemode == p.codemode && q.failed == p.failed
  {
    hide Metadata, Services, UploadMigrations;
    var q := Uploaded(env, p, b, pass, loaders);
    assert q.log[..|p.log|] == p.log;
  }

  /** Did the account make the run give up CodeMode? */
  predicate GaveUp(start: Progress, p: Progress) {
    start.codemode && !p.codemode
  }

  ghost predicate CodemodeKept(env: Env, start: Progress, p: Progress, bundles: seq<Prepared>) {
    && (p.codemode ==> start.codemode)
    && (GaveUp(start, p) ==> env.preference == Auto)
    && Rejections(p.log) == (if GaveUp(start, p) then 1 else 0)
    && LastLoaders(p.log, 2) == None
    && (if exists b :: b in bundles && b.component == GATEWAY then LastLoaders(p.log, 1) == Some(p.codemode)
        else LastLoaders(p.log, 1) == None)
  }

  lemma FirstUploadKeepsCodemode(env: Env, start: Progress, p: Progress, before: seq<Prepared>, b: Prepared)
    requires CodemodeKept(env, start, p, before) && !p.failed
    requires !FirstUpload(env, p, b).failed
    ensures CodemodeKept(env, start, FirstUpload(env, p, b), before + [b])
  {
    hide Uploaded, LastLoaders, Rejections;
    var q := Uploaded(env, p, b, 1, LoadersWanted(p, b));
    LogGrows(env, p, b, 1, LoadersWanted(p, b));
    LogGrows(env, q, b, 1, false);
    assert (exists x :: x in before + [b] && x.component == GATEWAY) <==>
           (exists x :: x in before && x.component == GATEWAY) || b.component == GATEWAY by {
      assert b in before + [b];
      assert forall x :: x in before ==> x in before + [b];
    }
  }

  lemma {:induction false} FirstPassKeepsCodemode(env: Env, start: Progress, bundles: seq<Prepared>)
    requires start.log == [] && !FirstPass(env, start, bundles).failed
    ensures CodemodeKept(env, start, FirstPass(env, start, bundles), bundles)
  {
    hide FirstUpload;
    if bundles != [] {
      var n := |bundles| - 1;
      StaysFailed(env, FirstPass(env, start, bundles[..n]), bundles[n]);
      FirstPassKeepsCodemode(env, start, bundles[..n]);
      FirstUploadKeepsCodemode(env, start, FirstPass(env, start, bundles[..n]), bundles[..n], bundles[n]);
      assert bundles[..n] + [bundles[n]] == bundles;
    }
  }

  lemma StaysFailed(env: Env, p: Progress, b: Prepared)
    ensures p.failed ==> FirstUpload(env, p, b).failed
  {
  }

  lemma {:induction false} SecondPassKeepsCodemode(env: Env, start: Progress, bundles: seq<Prepared>)
    requires !SecondPass(env, start, bundles).failed && LastLoaders(start.log, 2) == None
    ensures var p := SecondPass(env, start, bundles);
      && p.codemode == start.codemode
      && Rejections(p.log) == Rejections(start.log)
      && LastLoaders(p.log, 1) == LastLoaders(start.log, 1)
      && (if exists b :: b in bundles && b.component == GATEWAY then LastLoaders(p.log, 2) == Some(p.codemode)
          else LastLoaders(p.log, 2) == None)
  {
    hide Uploaded, LastLoaders, Rejections;
    if bundles != [] {
      var n := |bundles| - 1;
      SecondPassKeepsCodemode(env, start, bundles[..n]);
      var p := SecondPass(env, start, bundles[..n]);
      LogGrows(env, p, bundles[n], 2, LoadersWanted(p, bundles[n]));
      assert forall b :: b in bundles <==> b in bundles[..n] || b == bundles[n];
    }
  }

  /** In a successful deploy of the gateway both passes agree on the worker loaders: On always
      includes them, Off never does, and Auto includes them exactly when the plan is known to be
      paid and the account did not reject them, which happens at most once. */
  lemma CodemodeIsConsistent(env: Env, components: seq<string>)
    requires Deployed(env, components).0.Ok? && GATEWAY in components
    ensures var p := Deployed(env, components).1;
      && LastLoaders(p.log, 1) == LastLoaders(p.log, 2) == Some(p.codemode)
      && Rejections(p.log) <= 1
      && match env.preference
         case On => p.codemode && Rejections(p.log) == 0
         case Off => !p.codemode && Rejections(p.log) == 0
         case Auto => p.codemode <==> env.workersPaid == Some(true) && Rejections(p.log) == 0
  {
    hide FirstPass, SecondPass, Load, LastLoaders, Rejections;
    var bundles := Prepare(env, components).value;
    var start := StartOf(env, components);
    PrepareYields(env, components);
    FirstPassKeepsCodemode(env, start, bundles);
    SecondPassKeepsCodemode(env, FirstPass(env, start, bundles), bundles);
  }

  predicate RejectedBefore(log: seq<Upload>, i: nat)
    requires i <= |log|
  {
    exists j :: 0 <= j < i && log[j].component == GATEWAY && log[j].answer.LoaderRejected?
  }

  /** Only the gateway is ever sent without loaders: when CodeMode was off from the start, or
      after the account rejected them under Auto. */
  predicate LoadersJustified(preference: Preference, codemode: bool, log: seq<Upload>, i: nat)
    requires i < |log|
  {
    if log[i].component != GATEWAY then log[i].loaders
    else if log[i].loaders then codemode
    else codemode ==> preference == Auto && RejectedBefore(log, i)
  }

  /** The log of a run so far, failed or not. */
  ghost predicate LogFollows(env: Env, components: seq<string>, start: Progress, p: Progress) {
    && (forall i :: 0 <= i < |p.log| ==> p.log[i].component in components)
    && (forall i :: 0 <= i < |p.log| ==> LoadersJustified(env.preference, start.codemode, p.log, i))
    && (p.codemode ==> start.codemode)
    && (GaveUp(start, p) ==> env.preference == Auto && RejectedBefore(p.log, |p.log|))
  }

  lemma UploadFollows(env: Env, components: seq<string>, start: Progress,
      p: Progress, b: Prepared, pass: nat, loaders: bool)
    requires LogFollows(env, components, start, p) && b.component in components
    requires if b.component != GATEWAY then loaders
             else if loaders then p.codemode
             else start.codemode ==> env.preference == Auto && RejectedBefore(p.log, |p.log|)
    ensures var q := Uploaded(env, p, b, pass, loaders);
      && LogFollows(env, components, start, q)
      && (env.answers(|p.log|).LoaderRejected? && b.component == GATEWAY ==> RejectedBefore(q.log, |q.log|))
  {
    hide Metadata, Services, UploadMigrations;
    hide RejectedBefore;
    var q := Uploaded(env, p, b, pass, loaders);
    LogExtends(env, p, b, pass, loaders);
    RejectionStays(p.log, q.log, |p.log|, |p.log|);
    RejectionStays(p.log, q.log, |p.log|, |q.log|);
    forall i | 0 <= i < |q.log| ensures LoadersJustified(env.preference, start.codemode, q.log, i) {
      if i < |p.log| {
        assert LoadersJustified(env.preference, start.codemode, p.log, i);
        RejectionStays(p.log, q.log, i, i);
      }
    }
    if env.answers(|p.log|).LoaderRejected? && b.component == GATEWAY {
      RejectionIsNoted(q.log, |p.log|);
    }
  }

  lemma LogExtends(env: Env, p: Progress, b: Prepared, pass: nat, loaders: bool)
    ensures p.log <= Uploaded(env, p, b, pass, loaders).log
    ensures |Uploaded(env, p, b, pass, loaders).log| == |p.log| + 1
  {
    hide Metadata, Services, UploadMigrations;
  }

  lemma RejectionStays(log: seq<Upload>, longer: seq<Upload>, i: nat, n: nat)
    requires log <= longer && i <= |log| && i <= n <= |longer|
    ensures RejectedBefore(log, i) ==> RejectedBefore(longer, n)
  {
    if RejectedBefore(log, i) {
      var j :| 0 <= j < i && log[j].component == GATEWAY && log[j].answer.LoaderRejected?;
      assert longer[j] == log[j];
    }
  }

  lemma RejectionIsNoted(log: seq<Upload>, j: nat)
    requires j < |log| && log[j].component == GATEWAY && log[j].answer.LoaderRejected?
    ensures RejectedBefore(log, |log|)
  {
  }

  lemma FirstUploadFollows(env: Env, components: seq<string>, start: Progress, p: Progress, b: Prepared)
    requires LogFollows(env, components, start, p) && b.component in components
    ensures LogFollows(env, components, start, FirstUpload(env, p, b))
  {
    hide Uploaded, LoadersJustified;
    if !p.failed && env.assetsSynced(b.component) && b.config.complete {
      var q := Uploaded(env, p, b, 1, LoadersWanted(p, b));
      UploadFollows(env, components, start, p, b, 1, LoadersWanted(p, b));
      LogGrows(env, p, b, 1, LoadersWanted(p, b));
      if env.answers(|p.log|).LoaderRejected? && b.component == GATEWAY && env.preference == Auto && p.codemode {
        UploadFollows(env, components, start, q, b, 1, false);
        LogGrows(env, q, b, 1, false);
        LogExtends(env, q, b, 1, false);
        RejectionStays(q.log, Uploaded(env, q, b, 1, false).log, |q.log|, |q.log| + 1);
      }
    }
  }

  lemma {:induction false} FirstPassFollows(env: Env, components: seq<string>, start: Progress, bundles: seq<Prepared>)
    requires start.log == [] && forall b :: b in bundles ==> b.component in components
    ensures LogFollows(env, components, start, FirstPass(env, start, bundles))
  {
    hide FirstUpload, LoadersJustified;
    if bundles != [] {
      var n := |bundles| - 1;
      FirstPassFollows(env, components, start, bundles[..n]);
      FirstUploadFollows(env, components, start, FirstPass(env, start, bundles[..n]), bundles[n]);
    }
  }

  lemma {:induction false} SecondPassFollows(
      env: Env, components: seq<string>, start: Progress, first: Progress, bundles: seq<Prepared>)
    requires LogFollows(env, components, start, first) && forall b :: b in bundles ==> b.component in components
    ensures LogFollows(env, components, start, SecondPass(env, first, bundles))
  {
    hide Uploaded, LoadersJustified, RejectedBefore;
    if bundles != [] {
      var n := |bundles| - 1;
      SecondPassFollows(env, components, start, first, bundles[..n]);
      var p := SecondPass(env, first, bundles[..n]);
      UploadFollows(env, components, start, p, bundles[n], 2, LoadersWanted(p, bundles[n]));
    }
  }

  /** In every run, failed or not, every gateway upload includes the worker loaders under On and
      none does under Off; under Auto they need a plan known to be paid, and are left out on
      such a plan only after the account has rejected them. No other worker loses its loaders. */
  lemma EveryUploadFollowsPreference(env: Env, components: seq<string>, i: nat)
    requires i < |Deployed(env, components).1.log|
    ensures var log := Deployed(env, components).1.log;
      if log[i].component != GATEWAY then log[i].loaders
      else
        match env.preference
        case On => log[i].loaders
        case Off => !log[i].loaders
        case Auto =>
          && (log[i].loaders ==> env.workersPaid == Some(true))
          && (!log[i].loaders ==> env.workersPaid != Some(true) || RejectedBefore(log, i))
  {
    hide FirstPass, SecondPass, Prepare, ReconcileGateway, RejectedBefore;
    if Prepare(env, components).Ok? {
      var bundles := Prepare(env, components).value;
      var start := StartOf(env, components);
      PrepareYields(env, components);
      FirstPassFollows(env, components, start, bundles);
      SecondPassFollows(env, components, start, FirstPass(env, start, bundles), bundles);
      ReconcileKeepsLog(env, Uploads(env, components, bundles), components);
      var p := Uploads(env, components, bundles);
      assert p.log[i].component in components;
      assert LoadersJustified(env.preference, start.codemode, p.log, i);
    }
  }

  lemma ReconcileKeepsLog(env: Env, p: Progress, components: seq<string>)
    ensures ReconcileGateway(env, p, components).1.log == p.log
  {
  }

  // ---------------------------------------------------------------- migrations

  /** The migration steps of a script that were accepted, in order. */
  function StepsAccepted(log: seq<Upload>, script: string): seq<Json> {
    if log == [] then []
    else
      var u := log[|log| - 1];
      StepsAccepted(log[..|log| - 1], script) +
      if u.script == script && u.answer.Accepted? && u.migrations.Some? then u.migrations.value.steps else []
  }

  /** The script's state in the migration model, as it was found. */
  function Found(env: Env, script: string): Migrations.Script {
    Migrations.Script(script in env.existing, ExistingTag(env, script), [])
  }

  function PayloadSteps(m: Option<Migrations.Payload>): seq<Json> {
    if m.Some? then m.value.steps else []
  }

  lemma StepsGrow(env: Env, p: Progress, b: Prepared, pass: nat, loaders: bool, script: string)
    ensures var q := Uploaded(env, p, b, pass, loaders);
      StepsAccepted(q.log, script) == StepsAccepted(p.log, script) +
        if script == Script(env, b.component) && env.answers(|p.log|).Accepted?
            then PayloadSteps(UploadMigrations(env, b, pass)) else []
  {
    hide Metadata, Services, UploadMigrations;
    var q := Uploaded(env, p, b, pass, loaders);
    assert q.log[..|p.log|] == p.log;
  }

  lemma FirstUploadSteps(env: Env, p: Progress, b: Prepared, script: string)
    requires !p.failed && !FirstUpload(env, p, b).failed
    ensures StepsAccepted(FirstUpload(env, p, b).log, script) == StepsAccepted(p.log, script) +
              if script == Script(env, b.component) then PayloadSteps(UploadMigrations(env, b, 1)) else []
  {
    hide Uploaded, UploadMigrations, StepsAccepted;
    var q := Uploaded(env, p, b, 1, LoadersWanted(p, b));
    StepsGrow(env, p, b, 1, LoadersWanted(p, b), script);
    StepsGrow(env, q, b, 1, false, script);
  }

  predicate DistinctScripts(env: Env, bundles: seq<Prepared>) {
    forall i, j :: 0 <= i < j < |bundles| ==> Script(env, bundles[i].component) != Script(env, bundles[j].component)
  }

  lemma {:induction false} FirstPassSteps(env: Env, start: Progress, bundles: seq<Prepared>, i: int, script: string)
    requires start.log == [] && DistinctScripts(env, bundles) && !FirstPass(env, start, bundles).failed
    requires -1 <= i < |bundles|
    requires if i == -1 then script !in ScriptsOf(env, bundles) else script == Script(env, bundles[i].component)
    ensures StepsAccepted(FirstPass(env, start, bundles).log, script)
         == if i == -1 then [] else PayloadSteps(UploadMigrations(env, bundles[i], 1))
  {
    hide FirstUpload, UploadMigrations, Script;
    if bundles != [] {
      var n := |bundles| - 1;
      var before := bundles[..n];
      StaysFailed(env, FirstPass(env, start, before), bundles[n]);
      if i == n {
        ScriptsOfMember(env, before, script);
        forall b | b in before ensures Script(env, b.component) != script {
          var k :| 0 <= k < n && before[k] == b;
          assert bundles[k] == b;
        }
        FirstPassSteps(env, start, before, -1, script);
      } else {
        FirstPassSteps(env, start, before, i, script);
      }
      FirstUploadSteps(env, FirstPass(env, start, before), bundles[n], script);
    }
  }

  lemma {:induction false} SecondPassSteps(env: Env, start: Progress, bundles: seq<Prepared>, script: string)
    ensures StepsAccepted(SecondPass(env, start, bundles).log, script) == StepsAccepted(start.log, script)
  {
    hide Uploaded, StepsAccepted;
    if bundles != [] {
      var n := |bundles| - 1;
      SecondPassSteps(env, start, bundles[..n], script);
      var p := SecondPass(env, start, bundles[..n]);
      StepsGrow(env, p, bundles[n], 2, LoadersWanted(p, bundles[n]), script);
      assert PayloadSteps(UploadMigrations(env, bundles[n], 2)) == [];
    }
  }

  /** Although every worker is uploaded twice, and the gateway perhaps a third time, a successful
      deploy gets each worker's migration steps accepted exactly once. */
  lemma MigrationsAcceptedOnce(env: Env, components: seq<string>, bundles: seq<Prepared>, i: nat)
    requires DistinctScripts(env, bundles) && i < |bundles|
    requires !Uploads(env, components, bundles).failed
    ensures var script := Script(env, bundles[i].component);
      StepsAccepted(Uploads(env, components, bundles).log, script)
        == Migrations.Deploy(Found(env, script), bundles[i].config.migrations).applied
  {
    hide FirstPass, SecondPass, StepsAccepted;
    var start := StartOf(env, components);
    var script := Script(env, bundles[i].component);
    FirstPassSteps(env, start, bundles, i, script);
    SecondPassSteps(env, FirstPass(env, start, bundles), bundles, script);
  }

  /** The script carries the tag the migration model leaves. */
  predicate Tagged(env: Env, p: Progress, b: Prepared) {
    var script := Script(env, b.component);
    script in p.scripts && p.scripts[script].tag == Migrations.Deploy(Found(env, script), b.config.migrations).tag
  }

  lemma UploadTags(env: Env, p: Progress, b: Prepared, loaders: bool)
    requires env.answers(|p.log|).Accepted?
    requires var script := Script(env, b.component);
      (script in p.scripts ==> p.scripts[script].tag == ExistingTag(env, script) || Tagged(env, p, b)) &&
      (script !in p.scripts ==> script !in env.existing)
    ensures Tagged(env, Uploaded(env, p, b, 1, loaders), b)
  {
    hide Metadata, Services, Migrations.BuildMigrationsPayload, Migrations.BuildInferredMigration;
  }

  lemma {:induction false} FirstPassTags(env: Env, components: seq<string>, all: seq<Prepared>, bundles: seq<Prepared>)
    requires ValidInstance(env.instance) && BundlesOf(env, components, all)
    requires forall b :: b in bundles ==> b in all
    requires !FirstPass(env, StartOf(env, components), bundles).failed
    ensures forall b :: b in bundles ==> Tagged(env, FirstPass(env, StartOf(env, components), bundles), b)
  {
    hide Uploaded, BundlesOf, Script, Migrations.Deploy;
    if bundles != [] {
      var n := |bundles| - 1;
      var start, before, last := StartOf(env, components), bundles[..n], bundles[n];
      var p := FirstPass(env, start, before);
      FirstPassTags(env, components, all, before);
      LastIsTagged(env, components, all, p, before, last);
      forall b | b in bundles ensures Tagged(env, FirstUpload(env, p, last), b) {
        if Script(env, b.component) == Script(env, last.component) {
          ScriptDeterminesBundle(env, components, all, b, last);
        } else {
          assert b in before;
          FirstUploadTouches(env, p, last, Script(env, b.component));
        }
      }
    }
  }

  lemma LastIsTagged(env: Env, components: seq<string>, all: seq<Prepared>,
      p: Progress, before: seq<Prepared>, last: Prepared)
    requires ValidInstance(env.instance) && BundlesOf(env, components, all)
    requires last in all && (forall b :: b in before ==> b in all)
    requires p == FirstPass(env, StartOf(env, components), before) && !p.failed && !FirstUpload(env, p, last).failed
    requires forall b :: b in before ==> Tagged(env, p, b)
    ensures Tagged(env, FirstUpload(env, p, last), last)
  {
    hide Uploaded, BundlesOf, FirstPass, Migrations.Deploy;
    var script := Script(env, last.component);
    ScriptsOfMember(env, before, script);
    if script in ScriptsOf(env, before) {
      var b :| b in before && Script(env, b.component) == script;
      ScriptDeterminesBundle(env, components, all, b, last);
    } else {
      FirstPassTouches(env, StartOf(env, components), before, script);
    }
    var q := Uploaded(env, p, last, 1, LoadersWanted(p, last));
    if env.answers(|p.log|).Accepted? {
      UploadTags(env, p, last, LoadersWanted(p, last));
    } else {
      RejectedChangesNothing(env, p, last, 1, LoadersWanted(p, last));
      UploadTags(env, q, last, false);
    }
  }

  lemma RejectedChangesNothing(env: Env, p: Progress, b: Prepared, pass: nat, loaders: bool)
    requires !Applies(env.answers(|p.log|))
    ensures Uploaded(env, p, b, pass, loaders).scripts == p.scripts
  {
  }

  lemma {:induction false} SecondPassKeepsTags(env: Env, start: Progress, bundles: seq<Prepared>, s: string)
    ensures s in start.scripts ==>
      s in SecondPass(env, start, bundles).scripts &&
          SecondPass(env, start, bundles).scripts[s].tag == start.scripts[s].tag
  {
    hide Metadata, Services;
    if bundles != [] {
      SecondPassKeepsTags(env, start, bundles[..|bundles| - 1], s);
    }
  }

  lemma PreparedIsDistinct(env: Env, components: seq<string>)
    requires ValidInstance(env.instance) && Distinct(components) && Prepare(env, components).Ok?
    ensures DistinctScripts(env, Prepare(env, components).value)
  {
    hide BundlesOf, Prepare, Script;
    var bundles := Prepare(env, components).value;
    PrepareYields(env, components);
    forall i, j | 0 <= i < j < |bundles|
      ensures Script(env, bundles[i].component) != Script(env, bundles[j].component)
    {
      if Script(env, bundles[i].component) == Script(env, bundles[j].component) {
        ScriptDeterminesBundle(env, components, bundles, bundles[i], bundles[j]);
      }
    }
  }

  lemma ReconcileKeepsTags(env: Env, p: Progress, components: seq<string>, script: string)
    requires script in p.scripts
    ensures var q := ReconcileGateway(env, p, components).1;
      q.log == p.log && script in q.scripts && q.scripts[script].tag == p.scripts[script].tag
  {
    hide BindingPatch, WritableAnnotations;
  }

  lemma UploadsTag(env: Env, components: seq<string>, bundles: seq<Prepared>, b: Prepared)
    requires ValidInstance(env.instance) && BundlesOf(env, components, bundles) && b in bundles
    requires !Uploads(env, components, bundles).failed
    ensures Tagged(env, Uploads(env, components, bundles), b)
  {
    hide FirstPass, SecondPass, Migrations.Deploy, BundlesOf;
    var first := FirstPass(env, StartOf(env, components), bundles);
    FirstPassTags(env, components, bundles, bundles);
    assert Tagged(env, first, b);
    SecondPassKeepsTags(env, first, bundles, Script(env, b.component));
  }

  /** A successful deploy moves each selected worker exactly as the migration model says: the
      steps accepted and the tag left are those of one `Migrations.Deploy`. */
  lemma DeployMigratesOnce(env: Env, components: seq<string>, c: string)
    requires ValidInstance(env.instance) && Distinct(components) && c in components
    requires Deployed(env, components).0.Ok?
    ensures env.load(c).Some?
    ensures var p, script := Deployed(env, components).1, Script(env, c);
      var after := Migrations.Deploy(Found(env, script), env.load(c).value.migrations);
      && StepsAccepted(p.log, script) == after.applied
      && script in p.scripts && p.scripts[script].tag == after.tag
  {
    hide Uploads, Prepare, ReconcileGateway, StepsAccepted, DistinctScripts, Migrations.Deploy, Found, Script;
    var bundles := Prepare(env, components).value;
    PrepareYields(env, components);
    PreparedIsDistinct(env, components);
    var b :| b in bundles && b.component == c;
    var i :| 0 <= i < |bundles| && bundles[i] == b;
    MigrationsAcceptedOnce(env, components, bundles, i);
    UploadsTag(env, components, bundles, b);
    ReconcileKeepsTags(env, Uploads(env, components, bundles), components, Script(env, c));
  }
}
