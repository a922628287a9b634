/** Under which names the workers of a successful deploy find each other. */
module LinkNames {
  import opened Common
  import opened Json
  import opened Naming
  import opened Bindings
  import opened GatewayPatch
  import opened Deploy
  import opened DeployProperties

  /** Exactly one binding has the service's name, and it says what the service says. */
  ghost predicate ResolvesService(bs: seq<Json>, s: ServiceBinding) {
    exists k :: 0 <= k < |bs| && OnlyNamed(bs, s.binding, k) && IsService(bs[k], s)
  }

  /** No binding other than a service has the name. */
  predicate Free(c: Config, name: string, loaders: bool) {
    && (forall j :: j in c.leading + c.trailing ==> !HasName(j, name))
    && (loaders ==> name !in c.loaders)
  }

  lemma BindingJsonNames(s: ServiceBinding, loader: string)
    ensures Get(ServiceBindingJson(s), "name") == Some(JString(s.binding))
    ensures Get(LoaderJson(loader), "name") == Some(JString(loader))
  {
    BindingFields(s, loader);
  }

  /** Where the entries of an upload's binding list come from. */
  lemma MetadataAt(env: Env, b: Prepared, available: set<string>, loaders: bool, k: nat)
    requires k < |Metadata(env, b, available, loaders)|
    ensures var m, services, leading := Metadata(env, b, available, loaders),
        Services(env, b, available), |b.config.leading|;
      var inner := leading + |services|;
      var outer := inner + if loaders then |b.config.loaders| else 0;
      && |m| == outer + |b.config.trailing|
      && (if k < leading then m[k] == b.config.leading[k]
          else if k < inner then m[k] == ServiceBindingJson(services[k - leading])
          else if k < outer then m[k] == LoaderJson(b.config.loaders[k - inner])
          else m[k] == b.config.trailing[k - outer])
  {
    hide Services;
  }

  /** A name with a service resolves to that service exactly when nothing else has the name. */
  lemma MetadataResolvesExactly(env: Env, b: Prepared, available: set<string>, loaders: bool, name: string)
    requires UniqueNames(Services(env, b, available))
    requires Lookup(Services(env, b, available), name).Some?
    ensures ResolvesService(Metadata(env, b, available, loaders), Lookup(Services(env, b, available), name).value)
            <==> Free(b.config, name, loaders)
  {
    hide Services, Metadata, Lookup, IsService;
    var m, services := Metadata(env, b, available, loaders), Services(env, b, available);
    var s := Lookup(services, name).value;
    LookupIsMember(services, name);
    var i :| 0 <= i < |services| && services[i] == s && services[i].binding == name;
    var at := |b.config.leading| + i;
    ServiceEntry(env, b, available, loaders, i);
    if Free(b.config, name, loaders) {
      forall j | 0 <= j < |m| && HasName(m[j], name) ensures j == at {
        OnlyTheService(env, b, available, loaders, name, i, j);
      }
      assert OnlyNamed(m, name, at);
    } else {
      var j := Intruder(env, b, available, loaders, name);
    }
  }

  /** For a service without an environment, saying what it says is being a link to its target. */
  lemma LinkIsService(env: Env, b: Prepared, available: set<string>, loaders: bool, s: ServiceBinding)
    requires s in Services(env, b, available) && s.environment.None? && s.entrypoint.Some?
    ensures var m := Metadata(env, b, available, loaders);
      Resolves(m, s.binding, s.service, s.entrypoint.value) <==> ResolvesService(m, s)
  {
    hide Metadata, Services;
    var m := Metadata(env, b, available, loaders);
    ServiceInMetadata(env, b, available, loaders, s);
    BindingFields(s, "");
    var k :| 0 <= k < |m| && m[k] == ServiceBindingJson(s);
    assert HasName(m[k], s.binding);
    if Resolves(m, s.binding, s.service, s.entrypoint.value) {
      assert OnlyNamed(m, s.binding, k);
    }
    if ResolvesService(m, s) {
      assert OnlyNamed(m, s.binding, k) && IsLink(m[k], s.service, s.entrypoint.value);
    }
  }

  lemma ServiceEntry(env: Env, b: Prepared, available: set<string>, loaders: bool, i: nat)
    requires i < |Services(env, b, available)|
    ensures var m, s, at := Metadata(env, b, available, loaders),
        Services(env, b, available)[i], |b.config.leading| + i;
      && at < |m| && m[at] == ServiceBindingJson(s) && HasName(m[at], s.binding) && IsService(m[at], s)
  {
    hide Services, Metadata;
    MetadataLength(env, b, available, loaders);
    MetadataAt(env, b, available, loaders, |b.config.leading| + i);
    BindingFields(Services(env, b, available)[i], "");
  }

  lemma MetadataLength(env: Env, b: Prepared, available: set<string>, loaders: bool)
    ensures |Metadata(env, b, available, loaders)|
         == |b.config.leading| + |Services(env, b, available)|
            + (if loaders then |b.config.loaders| else 0) + |b.config.trailing|
  {
    hide Services;
  }

  lemma OnlyTheService(env: Env, b: Prepared, available: set<string>, loaders: bool, name: string, i: nat, j: nat)
    requires Free(b.config, name, loaders) && UniqueNames(Services(env, b, available))
    requires i < |Services(env, b, available)| && Services(env, b, available)[i].binding == name
    requires j < |Metadata(env, b, available, loaders)| && HasName(Metadata(env, b, available, loaders)[j], name)
    ensures j == |b.config.leading| + i
  {
    hide Services, Metadata, ServiceBindingJson, LoaderJson;
    var leading, services := |b.config.leading|, Services(env, b, available);
    var inner := leading + |services|;
    MetadataAt(env, b, available, loaders, j);
    if leading <= j < inner {
      BindingJsonNames(services[j - leading], "");
    } else if loaders && inner <= j < inner + |b.config.loaders| {
      BindingJsonNames(services[i], b.config.loaders[j - inner]);
    }
  }

  lemma NotAmongOthers(c: Config, name: string)
    requires forall k :: 0 <= k < |c.leading| ==> !HasName(c.leading[k], name)
    requires forall k :: 0 <= k < |c.trailing| ==> !HasName(c.trailing[k], name)
    ensures forall j :: j in c.leading + c.trailing ==> !HasName(j, name)
  {
    hide HasName;
  }

  lemma LoaderNamed(name: string)
    ensures HasName(LoaderJson(name), name)
  {
    BindingJsonNames(ServiceBinding("", "", None, None), name);
  }

  /** Another binding with the name. */
  lemma Intruder(env: Env, b: Prepared, available: set<string>, loaders: bool, name: string) returns (j: nat)
    requires !Free(b.config, name, loaders)
    ensures var m, leading := Metadata(env, b, available, loaders), |b.config.leading|;
      j < |m| && HasName(m[j], name) && !(leading <= j < leading + |Services(env, b, available)|)
  {
    hide Services, Metadata, ServiceBindingJson, HasName, LoaderJson;
    var c := b.config;
    var inner := |c.leading| + |Services(env, b, available)|;
    var outer := inner + if loaders then |c.loaders| else 0;
    MetadataLength(env, b, available, loaders);
    if exists k :: 0 <= k < |c.leading| && HasName(c.leading[k], name) {
      j :| 0 <= j < |c.leading| && HasName(c.leading[j], name);
    } else if exists k :: 0 <= k < |c.trailing| && HasName(c.trailing[k], name) {
      var k :| 0 <= k < |c.trailing| && HasName(c.trailing[k], name);
      j := outer + k;
    } else {
      NotAmongOthers(c, name);
      var k :| 0 <= k < |c.loaders| && c.loaders[k] == name;
      j := inner + k;
      LoaderNamed(name);
    }
    MetadataAt(env, b, available, loaders, j);
  }

  // ----------------------------------------------------- in both directions

  lemma AdapterUploadResolves(env: Env, b: Prepared, available: set<string>, loaders: bool)
    requires AdapterOf(b.component).Some? && env.instance in available && UniqueNames(b.config.services)
    ensures Resolves(Metadata(env, b, available, loaders), "GATEWAY", env.instance, "GatewayEntrypoint")
            <==> Free(b.config, "GATEWAY", loaders)
  {
    hide Metadata, ServiceBindings, Resolves, ResolvesService, Free;
    AdapterBindsGateway(b.component, b.config.services, env.instance, available);
    LookupIsMember(Services(env, b, available), "GATEWAY");
    LinkIsService(env, b, available, loaders, ServiceBinding("GATEWAY", env.instance, None, Some(GATEWAY_ENTRYPOINT)));
    MetadataResolvesExactly(env, b, available, loaders, "GATEWAY");
  }

  lemma GatewayUploadResolves(env: Env, b: Prepared, available: set<string>, loaders: bool, a: Adapter)
    requires b.component == GATEWAY && a in ADAPTERS && Script(env, a.component) in available
    requires UniqueNames(b.config.services)
    ensures Resolves(Metadata(env, b, available, loaders), a.gatewayBinding, Script(env, a.component), a.entrypoint)
            <==> Free(b.config, a.gatewayBinding, loaders)
  {
    hide Metadata, ServiceBindings, Resolves, ResolvesService, Free;
    GatewayBindsAdapter(b.config.services, env.instance, available, a);
    LookupIsMember(Services(env, b, available), a.gatewayBinding);
    var s := ServiceBinding(a.gatewayBinding, Script(env, a.component), None, Some(a.entrypoint));
    LinkIsService(env, b, available, loaders, s);
    MetadataResolvesExactly(env, b, available, loaders, a.gatewayBinding);
  }

  /** The configuration a selected component was loaded with. */
  function ConfigOf(env: Env, component: string): Config
    requires env.load(component).Some?
  {
    env.load(component).value
  }

  /** What the names of an upload resolve to after the uploads. */
  lemma UploadsResolve(env: Env, components: seq<string>, a: Adapter)
    requires ValidInstance(env.instance) && Prepare(env, components).Ok? && a in SelectedAdapters(components)
    requires !Uploads(env, components, Prepare(env, components).value).failed
    ensures env.load(a.component).Some? && (GATEWAY in components ==> env.load(GATEWAY).Some?)
    ensures var p := Uploads(env, components, Prepare(env, components).value);
      && Script(env, a.component) in p.scripts
      && (UniqueNames(ConfigOf(env, a.component).services) ==>
           (Resolves(p.scripts[Script(env, a.component)].bindings, "GATEWAY", env.instance, "GatewayEntrypoint")
            <==> Free(ConfigOf(env, a.component), "GATEWAY", true)))
      && (GATEWAY in components ==> env.instance in p.scripts)
      && (GATEWAY in components && UniqueNames(ConfigOf(env, GATEWAY).services) ==>
           (Resolves(p.scripts[env.instance].bindings, a.gatewayBinding, Script(env, a.component), a.entrypoint)
            <==> Free(ConfigOf(env, GATEWAY), a.gatewayBinding, p.codemode)))
  {
    hide Uploads, Prepare, Metadata, Resolves, Free, UniqueNames;
    var bundles := Prepare(env, components).value;
    var p, reachable := Uploads(env, components, bundles), Reachable(env, components);
    PrepareYields(env, components);
    SelectedComponent(components, a);
    AdapterTargetIsInstanceScript(env.instance, a);
    assert Script(env, GATEWAY) == env.instance;
    InstanceIsReachable(env, components);
    var b :| b in bundles && b.component == a.component;
    FinalBindingsIgnoreOrder(env, components, bundles, b);
    if UniqueNames(b.config.services) {
      AdapterUploadResolves(env, b, reachable, true);
    }
    if GATEWAY in components {
      var g :| g in bundles && g.component == GATEWAY;
      FinalBindingsIgnoreOrder(env, components, bundles, g);
      if UniqueNames(g.config.services) {
        GatewayUploadResolves(env, g, reachable, p.codemode, a);
      }
    }
  }

  lemma InstanceIsReachable(env: Env, components: seq<string>)
    requires Prepare(env, components).Ok? && SelectedAdapters(components) != []
    ensures env.instance in Reachable(env, components)
  {
    assert Script(env, GATEWAY) == env.instance;
  }

  /** After a successful deploy, "GATEWAY" in a selected adapter names its instance's gateway
      exactly when no other binding of the adapter takes that name; a gateway patched in place
      always resolves the adapter's name, an uploaded one exactly when the name is free there. */
  lemma DeployResolvesBothWays(env: Env, components: seq<string>, a: Adapter)
    requires ValidInstance(env.instance) && Deployed(env, components).0.Ok? && a in SelectedAdapters(components)
    ensures env.load(a.component).Some? && (GATEWAY in components ==> env.load(GATEWAY).Some?)
    ensures var p := Deployed(env, components).1;
      && Script(env, a.component) in p.scripts && env.instance in p.scripts
      && (UniqueNames(ConfigOf(env, a.component).services) ==>
           (Resolves(p.scripts[Script(env, a.component)].bindings, "GATEWAY", env.instance, "GatewayEntrypoint")
            <==> Free(ConfigOf(env, a.component), "GATEWAY", true)))
      && (GATEWAY in components && UniqueNames(ConfigOf(env, GATEWAY).services) ==>
           (Resolves(p.scripts[env.instance].bindings, a.gatewayBinding, Script(env, a.component), a.entrypoint)
            <==> Free(ConfigOf(env, GATEWAY), a.gatewayBinding, p.codemode)))
      && (GATEWAY !in components ==>
           Resolves(p.scripts[env.instance].bindings, a.gatewayBinding, Script(env, a.component), a.entrypoint))
  {
    hide Uploads, ReconcileGateway, Load, FirstUnsupported, SelectedAdapters, Script;
    hide Resolves, Free, UniqueNames, ConfigOf;
    var bundles := Prepare(env, components).value;
    var p := Uploads(env, components, bundles);
    UploadsResolve(env, components, a);
    if GATEWAY in components {
      NothingToReconcile(env, p, components);
    } else {
      SelectedComponent(components, a);
      UploadsKeepScripts(env, components, bundles);
      GatewayScript(env);
      ReconciledSideBinds(env, p, components, a);
      AdapterScriptDiffers(env, a);
      assert SameScript(p, ReconcileGateway(env, p, components).1, Script(env, a.component));
    }
  }

  // ---------------------------------------------------- configured services

  /** What an uploaded worker's bindings are in the end. */
  lemma UploadedIsBound(env: Env, components: seq<string>, c: string)
    requires ValidInstance(env.instance) && Deployed(env, components).0.Ok? && c in components
    ensures env.load(c).Some?
    ensures var p, b := Deployed(env, components).1, Prepared(c, ConfigOf(env, c));
      && Script(env, c) in p.scripts
      && p.scripts[Script(env, c)].bindings
           == Metadata(env, b, Reachable(env, components), c != GATEWAY || p.codemode)
  {
    hide Uploads, Prepare, Metadata, ReconcileGateway;
    var bundles := Prepare(env, components).value;
    var p := Uploads(env, components, bundles);
    PrepareYields(env, components);
    SelectionIsSupported(env, components);
    var b :| b in bundles && b.component == c;
    FinalBindingsIgnoreOrder(env, components, bundles, b);
    ReconcileKeepsCodemode(env, p, components);
    if GATEWAY in components {
      NothingToReconcile(env, p, components);
    } else {
      OtherScriptDiffers(env, c);
      ReconcileTouchesTheGateway(env, p, components, Script(env, c));
    }
  }

  lemma ReconcileKeepsCodemode(env: Env, p: Progress, components: seq<string>)
    ensures ReconcileGateway(env, p, components).1.codemode == p.codemode
  {
    hide BindingPatch, WritableAnnotations, Applied;
  }

  lemma OtherScriptDiffers(env: Env, c: string)
    requires ValidInstance(env.instance) && Supported(c) && c != GATEWAY
    ensures Script(env, c) != Script(env, GATEWAY)
  {
    SupportedHasScript(env.instance, c);
    SupportedExactly(GATEWAY);
    if Script(env, c) == Script(env, GATEWAY) {
      ScriptNamesInjective(env.instance, c, env.instance, GATEWAY);
    }
  }

  /** After a successful deploy, a service configured for the default instance's worker of some
      component resolves to this instance's worker of that component, entrypoint and environment
      kept, exactly when no other kind of binding takes the name. */
  lemma ConfiguredServiceResolves(env: Env, components: seq<string>, c: string, s: ServiceBinding, d: string)
    requires ValidInstance(env.instance) && Deployed(env, components).0.Ok? && c in components
    requires env.load(c).Some? && UniqueNames(ConfigOf(env, c).services) && s in ConfigOf(env, c).services
    requires !Injected(c, s.binding)
    requires ScriptName("gsv", d) == Some(s.service) && Script(env, d) in Reachable(env, components)
    ensures var p := Deployed(env, components).1;
      && Script(env, c) in p.scripts
      && (ResolvesService(p.scripts[Script(env, c)].bindings, s.(service := Script(env, d)))
          <==> Free(ConfigOf(env, c), s.binding, c != GATEWAY || p.codemode))
  {
    hide Deployed, Metadata, ServiceBindings, Lookup, Free, ResolvesService, Injected, ScriptNameForConfigService;
    var p, b := Deployed(env, components).1, Prepared(c, ConfigOf(env, c));
    var available := Reachable(env, components);
    UploadedIsBound(env, components, c);
    ConfigServiceOfComponent(env.instance, s.service, d);
    LookupOfMember(b.config.services, s);
    ConfiguredServiceIsUploaded(c, b.config.services, env.instance, available, s.binding, Script(env, d));
    MetadataResolvesExactly(env, b, available, c != GATEWAY || p.codemode, s.binding);
  }

  lemma LookupOfMember(bs: seq<ServiceBinding>, s: ServiceBinding)
    requires UniqueNames(bs) && s in bs
    ensures Lookup(bs, s.binding) == Some(s)
  {
    var i :| 0 <= i < |bs| && bs[i] == s;
    IndexOfAt(bs, s.binding, i);
  }

  /** In particular the gateway's ripgit service, since a gateway is only deployed with ripgit. */
  lemma GatewayResolvesItsRipgit(env: Env, components: seq<string>, s: ServiceBinding)
    requires ValidInstance(env.instance) && Deployed(env, components).0.Ok? && GATEWAY in components
    requires env.load(GATEWAY).Some? && UniqueNames(ConfigOf(env, GATEWAY).services)
    requires s in ConfigOf(env, GATEWAY).services && s.service == "ripgit" && !Injected(GATEWAY, s.binding)
    ensures var p := Deployed(env, components).1;
      var ripgit := if env.instance == "gsv" then "ripgit" else env.instance + "-ripgit";
      && env.instance in p.scripts
      && (ResolvesService(p.scripts[env.instance].bindings, s.(service := ripgit))
          <==> Free(ConfigOf(env, GATEWAY), s.binding, p.codemode))
  {
    hide Deployed, ResolvesService, Free, Injected;
    DefaultScripts();
    GatewayScript(env);
    RipgitIsReachable(env, components);
    ConfiguredServiceResolves(env, components, GATEWAY, s, RIPGIT);
  }

  lemma RipgitIsReachable(env: Env, components: seq<string>)
    requires Deployed(env, components).0.Ok? && GATEWAY in components
    ensures Script(env, RIPGIT) in Reachable(env, components)
    ensures Script(env, RIPGIT) == if env.instance == "gsv" then "ripgit" else env.instance + "-ripgit"
  {
    hide Uploads, ReconcileGateway;
    PrepareSucceedsExactly(env, components);
  }

  // ------------------------------------------- adapters outside the selection

  /** Without a service of the name, and with no other binding of it, nothing has the name. */
  lemma NobodyHasTheName(env: Env, b: Prepared, available: set<string>, loaders: bool, name: string, k: nat)
    requires Lookup(Services(env, b, available), name).None? && Free(b.config, name, loaders)
    requires k < |Metadata(env, b, available, loaders)|
    ensures !HasName(Metadata(env, b, available, loaders)[k], name)
  {
    hide Services, Metadata, ServiceBindingJson, LoaderJson, IndexOf;
    var leading, services := |b.config.leading|, Services(env, b, available);
    var inner := leading + |services|;
    IndexOfIsFirst(services, name);
    MetadataAt(env, b, available, loaders, k);
    if leading <= k < inner {
      BindingJsonNames(services[k - leading], "");
    } else if loaders && inner <= k < inner + |b.config.loaders| {
      BindingJsonNames(ServiceBinding("", "", None, None), b.config.loaders[k - inner]);
    }
  }

  lemma GatewayUploadBindsExactly(env: Env, b: Prepared, available: set<string>, loaders: bool, a: Adapter)
    requires b.component == GATEWAY && a in ADAPTERS && UniqueNames(b.config.services)
    requires Free(b.config, a.gatewayBinding, loaders)
    ensures Binds(Metadata(env, b, available, loaders), a, env.instance) <==> Script(env, a.component) in available
  {
    hide Metadata, ServiceBindings, Free;
    if Script(env, a.component) in available {
      GatewayUploadBindsAdapter(env, b, available, loaders, a);
    } else {
      GatewayBindsAdapter(b.config.services, env.instance, available, a);
      forall k | 0 <= k < |Metadata(env, b, available, loaders)|
        ensures !HasName(Metadata(env, b, available, loaders)[k], a.gatewayBinding)
      {
        NobodyHasTheName(env, b, available, loaders, a.gatewayBinding, k);
      }
    }
  }

  lemma UploadedGatewayIsBound(env: Env, components: seq<string>)
    requires ValidInstance(env.instance) && Deployed(env, components).0.Ok? && GATEWAY in components
    ensures env.load(GATEWAY).Some?
    ensures var p, g := Deployed(env, components).1, Prepared(GATEWAY, ConfigOf(env, GATEWAY));
      && env.instance in p.scripts
      && p.scripts[env.instance].bindings == Metadata(env, g, Reachable(env, components), p.codemode)
  {
    hide Uploads, Prepare, Metadata;
    var bundles := Prepare(env, components).value;
    var p := Uploads(env, components, bundles);
    PrepareYields(env, components);
    GatewayScript(env);
    NothingToReconcile(env, p, components);
    var g :| g in bundles && g.component == GATEWAY;
    FinalBindingsIgnoreOrder(env, components, bundles, g);
  }

  /** A successful deploy of the gateway binds every adapter of the instance that exists, whether
      it was selected or only found in the account. Exactly those are bound when the name is not
      taken otherwise. */
  lemma GatewayBindsEveryExistingAdapter(env: Env, components: seq<string>, a: Adapter)
    requires ValidInstance(env.instance) && Deployed(env, components).0.Ok?
    requires GATEWAY in components && a in ADAPTERS
    ensures env.load(GATEWAY).Some?
    ensures var p := Deployed(env, components).1;
      var exists_ := a.component in components || Script(env, a.component) in env.existing;
      && env.instance in p.scripts
      && (exists_ ==> Binds(p.scripts[env.instance].bindings, a, env.instance))
      && (UniqueNames(ConfigOf(env, GATEWAY).services) && Free(ConfigOf(env, GATEWAY), a.gatewayBinding, p.codemode) ==>
           (Binds(p.scripts[env.instance].bindings, a, env.instance) <==> exists_))
  {
    hide Deployed, Binds, UniqueNames, Free, Metadata, Prepare;
    var p := Deployed(env, components).1;
    UploadedGatewayIsBound(env, components);
    SelectionIsSupported(env, components);
    AdapterIsReachable(env, components, a);
    var g := Prepared(GATEWAY, ConfigOf(env, GATEWAY));
    if Script(env, a.component) in Reachable(env, components) {
      GatewayUploadBindsAdapter(env, g, Reachable(env, components), p.codemode, a);
    }
    if UniqueNames(g.config.services) && Free(g.config, a.gatewayBinding, p.codemode) {
      GatewayUploadBindsExactly(env, g, Reachable(env, components), p.codemode, a);
    }
  }

  lemma SelectionIsSupported(env: Env, components: seq<string>)
    requires Deployed(env, components).0.Ok?
    ensures forall c :: c in components ==> Supported(c)
  {
    hide Uploads, ReconcileGateway;
    PrepareSucceedsExactly(env, components);
  }

  lemma AdapterIsReachable(env: Env, components: seq<string>, a: Adapter)
    requires ValidInstance(env.instance) && a in ADAPTERS && forall c :: c in components ==> Supported(c)
    ensures Script(env, a.component) in Reachable(env, components)
        <==> a.component in components || Script(env, a.component) in env.existing
  {
    AdapterTargetIsInstanceScript(env.instance, a);
    SupportedHasScript(env.instance, a.component);
    if c :| c in components && Script(env, c) == Script(env, a.component) {
      SupportedHasScript(env.instance, c);
      ScriptNamesInjective(env.instance, c, env.instance, a.component);
    }
  }

  lemma GatewayScript(env: Env)
    ensures Script(env, GATEWAY) == env.instance
  {
  }

  lemma AdapterScriptDiffers(env: Env, a: Adapter)
    requires ValidInstance(env.instance) && Supported(a.component) && a.component != GATEWAY
    ensures Script(env, a.component) != env.instance
  {
    AdapterIsNotItsGateway(env.instance, a);
  }
}
