/**
 Service bindings between the gateway and its adapters (cli/src/deploy.rs): those
 an upload carries, rescoped to the instance and limited to workers that exist.
 */
module Bindings {
  import opened Common
  import opened Naming

  // ------------------------------------------------ bindings of an uploaded worker

  datatype ServiceBinding = ServiceBinding(binding: string, service: string,
      environment: Option<string>, entrypoint: Option<string>)

  /** The position of the first binding with the given name. */
  function IndexOf(bs: seq<ServiceBinding>, name: string): (r: Option<nat>)
    ensures r.Some? ==> r.value < |bs| && bs[r.value].binding == name
  {
    if bs == [] then None
    else if bs[0].binding == name then Some(0)
    else
      match IndexOf(bs[1..], name)
      case Some(i) => Some(i + 1)
      case None => None
  }

  function Lookup(bs: seq<ServiceBinding>, name: string): Option<ServiceBinding> {
    match IndexOf(bs, name)
    case Some(i) => Some(bs[i])
    case None => None
  }

  predicate UniqueNames(bs: seq<ServiceBinding>) {
    forall i, j :: 0 <= i < j < |bs| ==> bs[i].binding != bs[j].binding
  }

  function Reconciled(bs: seq<ServiceBinding>, name: string, service: string, entrypoint: string): seq<ServiceBinding> {
    var b := ServiceBinding(name, service, None, Some(entrypoint));
    match IndexOf(bs, name)
    case Some(i) => bs[i := b]
    case None => bs + [b]
  }

  function ReconciledAdapters(bs: seq<ServiceBinding>, adapters: seq<Adapter>): seq<ServiceBinding> {
    if adapters == [] then bs
    else
      var n := |adapters| - 1;
      Reconciled(ReconciledAdapters(bs, adapters[..n]), adapters[n].gatewayBinding,
          adapters[n].defaultScript, adapters[n].entrypoint)
  }

  function ConfiguredBindings(component: string, services: seq<ServiceBinding>): seq<ServiceBinding> {
    if AdapterOf(component).Some? then Reconciled(services, "GATEWAY", SCRIPT_GATEWAY, GATEWAY_ENTRYPOINT)
    else if component == GATEWAY then ReconciledAdapters(services, ADAPTERS)
    else services
  }

  /** Rescopes every target to the instance and drops those that are not deployed. */
  function Retargeted(bs: seq<ServiceBinding>, instance: string, available: set<string>): seq<ServiceBinding> {
    if bs == [] then []
    else
      var n := |bs| - 1;
      var b := bs[n].(service := ScriptNameForConfigService(instance, bs[n].service));
      Retargeted(bs[..n], instance, available) + if b.service in available then [b] else []
  }

  function ServiceBindings(component: string, services: seq<ServiceBinding>,
      instance: string, available: set<string>): seq<ServiceBinding> {
    Retargeted(ConfiguredBindings(component, services), instance, available)
  }

  /** The binding list an upload edits in place. */
  class BindingList {
    var items: seq<ServiceBinding>

    constructor (items: seq<ServiceBinding>)
      ensures this.items == items
    {
      this.items := items;
    }

    method Reconcile(name: string, service: string, entrypoint: string)
      modifies this
      ensures items == Reconciled(old(items), name, service, entrypoint)
    {
      for i := 0 to |items|
        invariant items == old(items)
        invariant IndexOf(items, name) == match IndexOf(items[i..], name) case Some(k) => Some(i + k) case None => None
      {
        assert items[i..][1..] == items[i + 1..];
        if items[i].binding == name {
          items := items[i := items[i].(service := service, environment := None, entrypoint := Some(entrypoint))];
          return;
        }
      }
      items := items + [ServiceBinding(name, service, None, Some(entrypoint))];
    }
  }

  method ServiceBindingsForBundle(component: string, services: seq<ServiceBinding>,
      instance: string, available: set<string>)
      returns (filtered: seq<ServiceBinding>)
    ensures filtered == ServiceBindings(component, services, instance, available)
  {
    hide ScriptNameForConfigService;
    var bindings := new BindingList(services);
    if AdapterOf(component).Some? {
      bindings.Reconcile("GATEWAY", SCRIPT_GATEWAY, GATEWAY_ENTRYPOINT);
    } else if component == GATEWAY {
      for i := 0 to |ADAPTERS|
        invariant bindings.items == ReconciledAdapters(services, ADAPTERS[..i])
      {
        assert ADAPTERS[..i + 1][..i] == ADAPTERS[..i];
        bindings.Reconcile(ADAPTERS[i].gatewayBinding, ADAPTERS[i].defaultScript, ADAPTERS[i].entrypoint);
      }
      assert ADAPTERS[..|ADAPTERS|] == ADAPTERS;
    }
    filtered := [];
    var all := bindings.items;
    for i := 0 to |all|
      invariant filtered == Retargeted(all[..i], instance, available)
    {
      assert all[..i + 1][..i] == all[..i];
      var binding := all[i].(service := ScriptNameForConfigService(instance, all[i].service));
      if binding.service in available {
        filtered := filtered + [binding];
      }
    }
    assert all[..|all|] == all;
  }

  lemma {:induction false} IndexOfIsFirst(bs: seq<ServiceBinding>, name: string)
    ensures var r := IndexOf(bs, name);
      forall k :: 0 <= k < (if r.Some? then r.value else |bs|) ==> bs[k].binding != name
  {
    if bs != [] && bs[0].binding != name {
      IndexOfIsFirst(bs[1..], name);
      forall k | 0 < k < |bs| ensures bs[k] == bs[1..][k - 1] {}
    }
  }

  lemma IndexOfAt(bs: seq<ServiceBinding>, name: string, i: nat)
    requires i < |bs| && bs[i].binding == name
    requires forall k :: 0 <= k < i ==> bs[k].binding != name
    ensures IndexOf(bs, name) == Some(i)
  {
    IndexOfIsFirst(bs, name);
  }

  lemma LookupMissing(bs: seq<ServiceBinding>, name: string)
    requires forall k :: 0 <= k < |bs| ==> bs[k].binding != name
    ensures Lookup(bs, name) == None
  {
  }

  /** Reconciling sets the named binding, leaves the others alone and keeps names unique. */
  lemma ReconcileSetsOne(bs: seq<ServiceBinding>, name: string, service: string, entrypoint: string, other: string)
    ensures var r := Reconciled(bs, name, service, entrypoint);
      && Lookup(r, other) == (if other == name
                              then Some(ServiceBinding(name, service, None, Some(entrypoint)))
                              else Lookup(bs, other))
      && (UniqueNames(bs) ==> UniqueNames(r))
  {
    var r := Reconciled(bs, name, service, entrypoint);
    IndexOfIsFirst(bs, name);
    IndexOfIsFirst(bs, other);
    IndexOfIsFirst(r, other);
    var i := IndexOf(bs, name);
    if i.None? {
      forall k | 0 <= k < |bs| ensures r[k] == bs[k] {}
    } else {
      forall k | 0 <= k < |bs| ensures r[k].binding == bs[k].binding {}
    }
    if other == name {
      IndexOfAt(r, name, if i.Some? then i.value else |bs|);
    } else if IndexOf(bs, other).Some? {
      IndexOfAt(r, other, IndexOf(bs, other).value);
    } else {
      LookupMissing(r, other);
    }
  }

  lemma {:induction false} RetargetedTargetsAvailable(bs: seq<ServiceBinding>, instance: string, available: set<string>)
    ensures forall b :: b in Retargeted(bs, instance, available) ==> b.service in available
  {
    if bs != [] {
      RetargetedTargetsAvailable(bs[..|bs| - 1], instance, available);
    }
  }

  /** Retargeting keeps only names that were there, in order, so unique names stay unique. */
  lemma {:induction false} RetargetedNames(bs: seq<ServiceBinding>, instance: string, available: set<string>)
    ensures var r := Retargeted(bs, instance, available);
      && (forall b :: b in r ==> exists k :: 0 <= k < |bs| && bs[k].binding == b.binding)
      && (UniqueNames(bs) ==> UniqueNames(r))
  {
    if bs != [] {
      var n := |bs| - 1;
      var rest := Retargeted(bs[..n], instance, available);
      var r := Retargeted(bs, instance, available);
      RetargetedNames(bs[..n], instance, available);
      forall b | b in r ensures exists k :: 0 <= k < |bs| && bs[k].binding == b.binding {
        if b in rest {
          var k :| 0 <= k < |bs[..n]| && bs[..n][k].binding == b.binding;
          assert bs[k].binding == b.binding;
        } else {
          assert bs[n].binding == b.binding;
        }
      }
      if UniqueNames(bs) && |r| > |rest| {
        forall i | 0 <= i < |rest| ensures r[i].binding != r[|rest|].binding {
          assert rest[i] in rest;
        }
      }
    }
  }

  lemma {:induction false} LookupConcat(a: seq<ServiceBinding>, b: seq<ServiceBinding>, name: string)
    ensures Lookup(a + b, name) == if Lookup(a, name).Some? then Lookup(a, name) else Lookup(b, name)
  {
    if a == [] {
      assert a + b == b;
    } else {
      assert (a + b)[1..] == a[1..] + b;
      LookupConcat(a[1..], b, name);
    }
  }

  lemma LookupLast(bs: seq<ServiceBinding>, name: string)
    requires bs != []
    ensures var n := |bs| - 1;
      Lookup(bs, name) == if Lookup(bs[..n], name).Some? then Lookup(bs[..n], name)
          else if bs[n].binding == name then Some(bs[n]) else None
  {
    var n := |bs| - 1;
    LookupConcat(bs[..n], [bs[n]], name);
    assert bs == bs[..n] + [bs[n]];
  }

  lemma RetargetedLast(bs: seq<ServiceBinding>, instance: string, available: set<string>)
    requires bs != []
    ensures var n := |bs| - 1;
      var b := bs[n].(service := ScriptNameForConfigService(instance, bs[n].service));
      var rest, r := Retargeted(bs[..n], instance, available), Retargeted(bs, instance, available);
      if b.service in available then |r| == |rest| + 1 && r[..|rest|] == rest && r[|rest|] == b else r == rest
  {
    hide ScriptNameForConfigService;
  }

  lemma {:induction false} RetargetedMissing(bs: seq<ServiceBinding>,
      instance: string, available: set<string>, name: string)
    requires Lookup(bs, name).None?
    ensures Lookup(Retargeted(bs, instance, available), name) == None
  {
    hide ScriptNameForConfigService, Lookup;
    if bs == [] {
      LookupMissing([], name);
    } else {
      LookupLast(bs, name);
      RetargetedMissing(bs[..|bs| - 1], instance, available, name);
      RetargetedLast(bs, instance, available);
      if |Retargeted(bs, instance, available)| > |Retargeted(bs[..|bs| - 1], instance, available)| {
        LookupLast(Retargeted(bs, instance, available), name);
      }
    }
  }

  /** A binding whose rescoped target is deployed is what its name resolves to; when names
      are unique and the target is not deployed, the name does not resolve. */
  lemma {:induction false} RetargetedLookup(bs: seq<ServiceBinding>,
      instance: string, available: set<string>, name: string)
    requires Lookup(bs, name).Some?
    ensures var b := Lookup(bs, name).value;
      var target := ScriptNameForConfigService(instance, b.service);
      && (target in available ==> Lookup(Retargeted(bs, instance, available), name) == Some(b.(service := target)))
      && (target !in available && UniqueNames(bs) ==> Lookup(Retargeted(bs, instance, available), name) == None)
  {
    hide ScriptNameForConfigService, Lookup;
    if bs == [] {
      LookupMissing([], name);
    } else {
      var n := |bs| - 1;
      LookupLast(bs, name);
      RetargetedLast(bs, instance, available);
      if Lookup(bs[..n], name).Some? {
        RetargetedLookup(bs[..n], instance, available, name);
        LookupIsMember(bs[..n], name);
      } else {
        RetargetedMissing(bs[..n], instance, available, name);
      }
      if |Retargeted(bs, instance, available)| > |Retargeted(bs[..n], instance, available)| {
        LookupLast(Retargeted(bs, instance, available), name);
      }
    }
  }

  lemma LookupIsMember(bs: seq<ServiceBinding>, name: string)
    requires Lookup(bs, name).Some?
    ensures exists i :: 0 <= i < |bs| && bs[i] == Lookup(bs, name).value && bs[i].binding == name
  {
  }

  /** The three adapter bindings of the gateway, as configured. */
  lemma ConfiguredGateway(services: seq<ServiceBinding>, a: Adapter)
    requires a in ADAPTERS
    ensures Lookup(ConfiguredBindings(GATEWAY, services), a.gatewayBinding)
         == Some(ServiceBinding(a.gatewayBinding, a.defaultScript, None, Some(a.entrypoint)))
    ensures UniqueNames(services) ==> UniqueNames(ConfiguredBindings(GATEWAY, services))
  {
    var s0 := services;
    var s1 := Reconciled(s0, ADAPTERS[0].gatewayBinding, ADAPTERS[0].defaultScript, ADAPTERS[0].entrypoint);
    var s2 := Reconciled(s1, ADAPTERS[1].gatewayBinding, ADAPTERS[1].defaultScript, ADAPTERS[1].entrypoint);
    var s3 := Reconciled(s2, ADAPTERS[2].gatewayBinding, ADAPTERS[2].defaultScript, ADAPTERS[2].entrypoint);
    UnfoldAdapters(services);
    ReconcileSetsOne(s0, ADAPTERS[0].gatewayBinding, ADAPTERS[0].defaultScript,
        ADAPTERS[0].entrypoint, a.gatewayBinding);
    ReconcileSetsOne(s1, ADAPTERS[1].gatewayBinding, ADAPTERS[1].defaultScript,
        ADAPTERS[1].entrypoint, a.gatewayBinding);
    ReconcileSetsOne(s2, ADAPTERS[2].gatewayBinding, ADAPTERS[2].defaultScript,
        ADAPTERS[2].entrypoint, a.gatewayBinding);
    DistinctGatewayBindings();
  }

  lemma DistinctGatewayBindings()
    ensures forall i, j :: 0 <= i < j < 3 ==> ADAPTERS[i].gatewayBinding != ADAPTERS[j].gatewayBinding
  {
    assert ADAPTERS[0].gatewayBinding[8] == 'W' && ADAPTERS[1].gatewayBinding[8] == 'D' &&
        ADAPTERS[2].gatewayBinding[8] == 'T';
  }

  lemma UnfoldAdapters(services: seq<ServiceBinding>)
    ensures var s1 := Reconciled(services, ADAPTERS[0].gatewayBinding,
        ADAPTERS[0].defaultScript, ADAPTERS[0].entrypoint);
      var s2 := Reconciled(s1, ADAPTERS[1].gatewayBinding, ADAPTERS[1].defaultScript, ADAPTERS[1].entrypoint);
      ReconciledAdapters(services, ADAPTERS) == Reconciled(s2, ADAPTERS[2].gatewayBinding,
          ADAPTERS[2].defaultScript, ADAPTERS[2].entrypoint)
  {
    assert ADAPTERS[..2] == [ADAPTERS[0], ADAPTERS[1]];
    assert [ADAPTERS[0], ADAPTERS[1]][..1] == [ADAPTERS[0]];
    assert [ADAPTERS[0]][..0] == [];
    assert ReconciledAdapters(services, [ADAPTERS[0]]) == Reconciled(ReconciledAdapters(services, []),
        ADAPTERS[0].gatewayBinding, ADAPTERS[0].defaultScript, ADAPTERS[0].entrypoint);
  }

  /** Bundled targets are rescoped to the instance's own workers. */
  lemma AdapterTargetIsInstanceScript(instance: string, a: Adapter)
    requires a in ADAPTERS
    ensures ScriptName(instance, a.component) == Some(ScriptNameForConfigService(instance, a.defaultScript))
    ensures ScriptNameForConfigService(instance, SCRIPT_GATEWAY) == instance
    ensures AdapterOf(a.component) == Some(a)
  {
    assert ADAPTERS[0].defaultScript[12] == 'w' && ADAPTERS[1].defaultScript[12] == 'd' &&
        ADAPTERS[2].defaultScript[12] == 't';
    assert ADAPTERS[0].component[8] == 'w' && ADAPTERS[1].component[8] == 'd' && ADAPTERS[2].component[8] == 't';
  }

  /** An uploaded adapter binds its own instance's gateway, whenever that gateway exists. */
  lemma AdapterBindsGateway(component: string, services: seq<ServiceBinding>, instance: string, available: set<string>)
    requires AdapterOf(component).Some? && instance in available
    ensures Lookup(ServiceBindings(component, services, instance, available), "GATEWAY")
         == Some(ServiceBinding("GATEWAY", instance, None, Some(GATEWAY_ENTRYPOINT)))
    ensures UniqueNames(services) ==> UniqueNames(ServiceBindings(component, services, instance, available))
  {
    ReconcileSetsOne(services, "GATEWAY", SCRIPT_GATEWAY, GATEWAY_ENTRYPOINT, "GATEWAY");
    AdapterTargetIsInstanceScript(instance, ADAPTERS[0]);
    RetargetedLookup(ConfiguredBindings(component, services), instance, available, "GATEWAY");
    RetargetedNames(ConfiguredBindings(component, services), instance, available);
  }

  /** An uploaded gateway binds each adapter's worker with its entrypoint, exactly when that
      worker exists. */
  lemma GatewayBindsAdapter(services: seq<ServiceBinding>, instance: string, available: set<string>, a: Adapter)
    requires a in ADAPTERS
    ensures var script := OrElse(ScriptName(instance, a.component), "");
      var found := Lookup(ServiceBindings(GATEWAY, services, instance, available), a.gatewayBinding);
      && (script in available ==> found == Some(ServiceBinding(a.gatewayBinding, script, None, Some(a.entrypoint))))
      && (script !in available && UniqueNames(services) ==> found == None)
    ensures UniqueNames(services) ==> UniqueNames(ServiceBindings(GATEWAY, services, instance, available))
  {
    ConfiguredGateway(services, a);
    AdapterTargetIsInstanceScript(instance, a);
    RetargetedLookup(ConfiguredBindings(GATEWAY, services), instance, available, a.gatewayBinding);
    RetargetedNames(ConfiguredBindings(GATEWAY, services), instance, available);
  }

  lemma TargetsAvailable(component: string, services: seq<ServiceBinding>, instance: string, available: set<string>)
    ensures forall b :: b in ServiceBindings(component, services, instance, available) ==> b.service in available
  {
    RetargetedTargetsAvailable(ConfiguredBindings(component, services), instance, available);
  }

  // --------------------------------------------- configured services and their places

  /** Reconciling replaces the first binding of the name where it stands, or appends one. */
  lemma ReconcileKeepsPlaces(bs: seq<ServiceBinding>, name: string, service: string, entrypoint: string)
    ensures var r := Reconciled(bs, name, service, entrypoint);
      var b := ServiceBinding(name, service, None, Some(entrypoint));
      if forall k :: 0 <= k < |bs| ==> bs[k].binding != name then r == bs + [b]
      else
        && |r| == |bs|
        && forall k :: 0 <= k < |bs| ==>
             r[k] == if bs[k].binding == name && (forall j :: 0 <= j < k ==> bs[j].binding != name) then b else bs[k]
  {
    IndexOfIsFirst(bs, name);
  }

  /** Rescoping works binding by binding, in order, */
  lemma {:induction false} RetargetedConcat(a: seq<ServiceBinding>, b: seq<ServiceBinding>,
      instance: string, available: set<string>)
    ensures Retargeted(a + b, instance, available)
         == Retargeted(a, instance, available) + Retargeted(b, instance, available)
  {
    hide ScriptNameForConfigService;
    if b == [] {
      assert a + b == a;
    } else {
      var n := |b| - 1;
      assert (a + b)[..|a + b| - 1] == a + b[..n];
      RetargetedConcat(a, b[..n], instance, available);
    }
  }

  /** and changes nothing in a binding but its target. */
  lemma RetargetedOne(b: ServiceBinding, instance: string, available: set<string>, target: string)
    requires target == ScriptNameForConfigService(instance, b.service)
    ensures Retargeted([b], instance, available)
         == if target in available then [ServiceBinding(b.binding, target, b.environment, b.entrypoint)] else []
  {
    assert [b][..0] == [];
  }

  /** The names an upload sets itself: an adapter's gateway, and a gateway's adapters. */
  predicate Injected(component: string, name: string) {
    (AdapterOf(component).Some? && name == "GATEWAY") ||
    (component == GATEWAY && exists k :: 0 <= k < |ADAPTERS| && ADAPTERS[k].gatewayBinding == name)
  }

  /** Every other name keeps what is configured for it. */
  lemma ConfiguredStays(component: string, services: seq<ServiceBinding>, name: string)
    requires !Injected(component, name)
    ensures Lookup(ConfiguredBindings(component, services), name) == Lookup(services, name)
    ensures UniqueNames(services) ==> UniqueNames(ConfiguredBindings(component, services))
  {
    hide Lookup, UniqueNames, Reconciled;
    if AdapterOf(component).Some? {
      ReconcileSetsOne(services, "GATEWAY", SCRIPT_GATEWAY, GATEWAY_ENTRYPOINT, name);
    } else if component == GATEWAY {
      var s0 := services;
      var s1 := Reconciled(s0, ADAPTERS[0].gatewayBinding, ADAPTERS[0].defaultScript, ADAPTERS[0].entrypoint);
      var s2 := Reconciled(s1, ADAPTERS[1].gatewayBinding, ADAPTERS[1].defaultScript, ADAPTERS[1].entrypoint);
      UnfoldAdapters(services);
      ReconcileSetsOne(s0, ADAPTERS[0].gatewayBinding, ADAPTERS[0].defaultScript, ADAPTERS[0].entrypoint, name);
      ReconcileSetsOne(s1, ADAPTERS[1].gatewayBinding, ADAPTERS[1].defaultScript, ADAPTERS[1].entrypoint, name);
      ReconcileSetsOne(s2, ADAPTERS[2].gatewayBinding, ADAPTERS[2].defaultScript, ADAPTERS[2].entrypoint, name);
      assert ADAPTERS[0].gatewayBinding != name && ADAPTERS[1].gatewayBinding != name;
      assert ADAPTERS[2].gatewayBinding != name;
    }
  }

  /** A configured service is uploaded with its target rescoped, if that exists. */
  lemma ConfiguredServiceIsUploaded(component: string, services: seq<ServiceBinding>, instance: string,
      available: set<string>, name: string, target: string)
    requires !Injected(component, name) && UniqueNames(services) && Lookup(services, name).Some?
    requires target == ScriptNameForConfigService(instance, Lookup(services, name).value.service)
    ensures var s := Lookup(services, name).value;
      Lookup(ServiceBindings(component, services, instance, available), name)
        == if target in available then Some(ServiceBinding(s.binding, target, s.environment, s.entrypoint)) else None
    ensures UniqueNames(ServiceBindings(component, services, instance, available))
  {
    hide Lookup, ConfiguredBindings, Retargeted, ScriptNameForConfigService, UniqueNames;
    ConfiguredStays(component, services, name);
    RetargetedLookup(ConfiguredBindings(component, services), instance, available, name);
    RetargetedNames(ConfiguredBindings(component, services), instance, available);
  }
}
