/**
 `apply_deploy` (cli/src/deploy.rs): uploading the selected workers twice, so
 that workers which bind each other can all be created first, falling back
 from CodeMode when the account rejects it, and reconciling a gateway that is
 not part of the deploy. Cloudflare is an account of live scripts whose
 answers to uploads are arbitrary.
 */
module Deploy {
  import opened Common
  import opened Json
  import opened Sorting
  import opened Naming
  import opened Bindings
  import opened GatewayPatch
  import Migrations

  datatype Preference = Auto | On | Off

  /** A bundle's configuration. `leading` and `trailing` are the bindings placed before and
      after its services and loaders; `complete` is false when its upload metadata cannot be built. */
  datatype Config = Config(
    services: seq<ServiceBinding>,
    loaders: seq<string>,
    leading: seq<Json>,
    trailing: seq<Json>,
    complete: bool,
    migrations: Migrations.Bundle)

  datatype Prepared = Prepared(component: string, config: Config)

  /** A script in the account. */
  datatype Live = Live(bindings: seq<Json>, tag: Option<string>)

  /** What comes back from a change, retries included. A change that is reported as refused may
      have been applied by an earlier try whose reply was lost. */
  datatype Answer = Accepted | LoaderRejected | Refused(applied: bool)

  predicate Applies(a: Answer) {
    a.Accepted? || a == Refused(true)
  }

  /** One upload as it was sent; `known` are the scripts the account held at that moment. */
  datatype Upload = Upload(
    pass: nat,
    component: string,
    script: string,
    services: seq<ServiceBinding>,
    loaders: bool,
    bindings: seq<Json>,
    migrations: Option<Migrations.Payload>,
    known: set<string>,
    answer: Answer)

  /** A script's settings as they are answered: with its bindings, or without a usable list. */
  datatype SettingsReply = SettingsReply(listsBindings: bool, others: map<string, Json>)

  /** What the run is given: whether listing the scripts and creating the buckets succeed, the
      bundle and the asset synchronisation of a component, the answer to the n-th upload, and the
      answers to the two calls that patch a live gateway, and the account's workers.dev subdomain. */
  datatype Env = Env(
    instance: string,
    preference: Preference,
    workersPaid: Option<bool>,
    existing: map<string, Live>,
    scriptsListed: bool,
    bucketsReady: bool,
    load: string -> Option<Config>,
    assetsSynced: string -> bool,
    answers: nat -> Answer,
    settings: Option<SettingsReply>,
    settingsPatch: Answer,
    subdomain: Option<string>)

  datatype DeployError =
    | NoComponents | ListingFailed | GatewayMissing | BundleMissing(component: string)
    | Unsupported(component: string) | RipgitMissing | BucketsFailed | UploadFailed
    | SettingsFailed | BadSettings(error: PatchError) | BadAnnotations(name: string)

  datatype Progress = Progress(scripts: map<string, Live>, log: seq<Upload>,
      available: set<string>, codemode: bool, failed: bool)

  // ---------------------------------------------------------------- one upload

  function Script(env: Env, component: string): string {
    OrElse(ScriptName(env.instance, component), "")
  }

  function ServiceBindingJson(b: ServiceBinding): Json {
    var m := map["name" := JString(b.binding), "type" := JString("service"), "service" := JString(b.service)];
    var m' := if b.environment.Some? then m["environment" := JString(b.environment.value)] else m;
    JObject(if b.entrypoint.Some? then m'["entrypoint" := JString(b.entrypoint.value)] else m')
  }

  function LoaderJson(name: string): Json {
    JObject(map["name" := JString(name), "type" := JString("worker_loader")])
  }

  /** An optional text as a field: a string, or no field. */
  function Field(value: Option<string>): Option<Json> {
    if value.Some? then Some(JString(value.value)) else None
  }

  /** The binding says exactly what the configuration says. */
  ghost predicate IsService(b: Json, s: ServiceBinding) {
    && b.JObject?
    && Get(b, "name") == Some(JString(s.binding)) && Get(b, "type") == Some(JString("service"))
    && Get(b, "service") == Some(JString(s.service))
    && Get(b, "environment") == Field(s.environment) && Get(b, "entrypoint") == Field(s.entrypoint)
    && forall key :: key !in {"name", "type", "service", "environment", "entrypoint"} ==> Get(b, key) == None
  }

  ghost predicate IsLoader(b: Json, name: string) {
    && b.JObject?
    && Get(b, "name") == Some(JString(name)) && Get(b, "type") == Some(JString("worker_loader"))
    && forall key :: key !in {"name", "type"} ==> Get(b, key) == None
  }

  lemma BindingFields(s: ServiceBinding, loader: string)
    ensures IsService(ServiceBindingJson(s), s)
    ensures IsLoader(LoaderJson(loader), loader)
  {
  }

  function Mapped<T>(s: seq<T>, f: T -> Json): (r: seq<Json>)
    ensures |r| == |s| && forall i :: 0 <= i < |s| ==> r[i] == f(s[i])
  {
    seq(|s|, i requires 0 <= i < |s| => f(s[i]))
  }

  /** The services of an upload. */
  function Services(env: Env, b: Prepared, available: set<string>): seq<ServiceBinding> {
    ServiceBindings(b.component, b.config.services, env.instance, available)
  }

  /** The bindings of an upload, in the order the metadata lists them. */
  function Metadata(env: Env, b: Prepared, available: set<string>, loaders: bool): seq<Json> {
    b.config.leading
    + Mapped(Services(env, b, available), ServiceBindingJson)
    + (if loaders then Mapped(b.config.loaders, LoaderJson) else [])
    + b.config.trailing
  }

  function ExistingTag(env: Env, script: string): Option<string> {
    if script in env.existing then env.existing[script].tag else None
  }

  /** Migrations go with the first pass only, computed from the tag listed at the start. */
  function UploadMigrations(env: Env, b: Prepared, pass: nat): Option<Migrations.Payload> {
    var script := Script(env, b.component);
    if pass == 1
    then Migrations.UploadMigrations(b.config.migrations, ExistingTag(env, script), script in env.existing)
    else None
  }

  function TagAfter(p: Progress, script: string, m: Option<Migrations.Payload>): Option<string> {
    if m.Some? then Some(m.value.newTag) else if script in p.scripts then p.scripts[script].tag else None
  }

  function Sent(env: Env, p: Progress, b: Prepared, pass: nat, loaders: bool): Upload {
    Upload(pass, b.component, Script(env, b.component), Services(env, b, p.available), loaders,
           Metadata(env, b, p.available, loaders), UploadMigrations(env, b, pass), p.scripts.Keys, env.answers(|p.log|))
  }

  function Uploaded(env: Env, p: Progress, b: Prepared, pass: nat, loaders: bool): Progress {
    var u := Sent(env, p, b, pass, loaders);
    p.(log := p.log + [u],
       scripts := if Applies(u.answer)
                  then p.scripts[u.script := Live(u.bindings, TagAfter(p, u.script, u.migrations))]
                  else p.scripts)
  }

  function LoadersWanted(p: Progress, b: Prepared): bool {
    b.component != GATEWAY || p.codemode
  }

  // ------------------------------------------------------------- the two passes

  function FirstUpload(env: Env, p: Progress, b: Prepared): Progress {
    if p.failed then p
    else if !env.assetsSynced(b.component) || !b.config.complete then p.(failed := true)
    else
      var q := Uploaded(env, p, b, 1, LoadersWanted(p, b));
      match env.answers(|p.log|)
      case Accepted => q.(available := p.available + {Script(env, b.component)})
      case Refused(_) => q.(failed := true)
      case LoaderRejected =>
        if b.component != GATEWAY || env.preference != Auto || !p.codemode then q.(failed := true)
        else
          var r := Uploaded(env, q, b, 1, false);
          if env.answers(|q.log|).Accepted?
          then r.(available := p.available + {Script(env, b.component)}, codemode := false)
          else r.(failed := true)
  }

  function SecondUpload(env: Env, p: Progress, b: Prepared): Progress {
    if p.failed then p
    else if !b.config.complete then p.(failed := true)
    else
      var q := Uploaded(env, p, b, 2, LoadersWanted(p, b));
      if env.answers(|p.log|).Accepted? then q else q.(failed := true)
  }

  function FirstPass(env: Env, start: Progress, bundles: seq<Prepared>): Progress {
    if bundles == [] then start
    else FirstUpload(env, FirstPass(env, start, bundles[..|bundles| - 1]), bundles[|bundles| - 1])
  }

  function SecondPass(env: Env, start: Progress, bundles: seq<Prepared>): Progress {
    if bundles == [] then start
    else SecondUpload(env, SecondPass(env, start, bundles[..|bundles| - 1]), bundles[|bundles| - 1])
  }

  // ------------------------------------------------------------- the whole deploy

  function CodemodeForPlan(deployingGateway: bool, preference: Preference, workersPaid: Option<bool>): bool {
    deployingGateway &&
    match preference
    case On => true
    case Off => false
    case Auto => workersPaid == Some(true)
  }

  /** Adapters need their gateway: in this deploy or already there. */
  predicate GatewayDependencyMet(env: Env, components: seq<string>) {
    SelectedAdapters(components) == [] || GATEWAY in components || Script(env, GATEWAY) in env.existing
  }

  function Load(env: Env, components: seq<string>): Result<seq<Prepared>, DeployError> {
    if components == [] then Ok([])
    else
      var n := |components| - 1;
      match Load(env, components[..n])
      case Err(e) => Err(e)
      case Ok(rest) =>
        if env.load(components[n]).None? then Err(BundleMissing(components[n]))
        else Ok(rest + [Prepared(components[n], env.load(components[n]).value)])
  }

  /** The first component no worker name exists for. */
  function FirstUnsupported(instance: string, components: seq<string>): Option<string> {
    if components == [] then None
    else if ScriptName(instance, components[0]).None? then Some(components[0])
    else FirstUnsupported(instance, components[1..])
  }

  function Order(b: Prepared): nat {
    DeployOrder(b.component)
  }

  function StartOf(env: Env, components: seq<string>): Progress {
    Progress(env.existing, [], env.existing.Keys,
        CodemodeForPlan(GATEWAY in components, env.preference, env.workersPaid), false)
  }

  /** The checks before anything is uploaded. */
  function Prepare(env: Env, components: seq<string>): Result<seq<Prepared>, DeployError> {
    if components == [] then Err(NoComponents)
    else if !env.scriptsListed then Err(ListingFailed)
    else if !GatewayDependencyMet(env, components) then Err(GatewayMissing)
    else
      match Load(env, components)
      case Err(e) => Err(e)
      case Ok(prepared) =>
        var unsupported := FirstUnsupported(env.instance, components);
        if unsupported.Some? then Err(Unsupported(unsupported.value))
        else if GATEWAY in components && RIPGIT !in components &&
            Script(env, RIPGIT) !in env.existing then Err(RipgitMissing)
        else if !env.bucketsReady then Err(BucketsFailed)
        else Ok(SortByKey(prepared, Order))
  }

  function Settings(live: seq<Json>, reply: SettingsReply): Json {
    JObject(if reply.listsBindings then reply.others["bindings" := JArray(live)] else reply.others - {"bindings"})
  }

  /** Brings a gateway that was not deployed in line with the adapters that were. */
  function ReconcileGateway(env: Env, p: Progress, components: seq<string>): (Result<(), DeployError>, Progress) {
    var gateway := Script(env, GATEWAY);
    if GATEWAY in components || SelectedAdapters(components) == [] then (Ok(()), p)
    else if gateway !in env.existing || gateway !in p.scripts then (Ok(()), p)
    else if env.settings.None? then (Err(SettingsFailed), p)
    else
      var live := p.scripts[gateway].bindings;
      var settings := Settings(live, env.settings.value);
      match BindingPatch(settings, components, env.instance)
      case Err(e) => (Err(BadSettings(e)), p)
      case Ok(None) => (Ok(()), p)
      case Ok(Some(patch)) =>
        if WritableAnnotations(settings).Err? then (Err(BadAnnotations(WritableAnnotations(settings).error)), p)
        else
          var patched := p.(scripts := p.scripts[gateway := p.scripts[gateway].(bindings := Applied(live, patch))]);
          (if env.settingsPatch.Accepted? then Ok(()) else Err(SettingsFailed),
           if Applies(env.settingsPatch) then patched else p)
  }

  /** The run after its preliminary checks. */
  function Uploads(env: Env, components: seq<string>, bundles: seq<Prepared>): Progress {
    var first := FirstPass(env, StartOf(env, components), bundles);
    if first.failed then first else SecondPass(env, first, bundles)
  }

  function TrimDots(s: string): string {
    if s != "" && s[|s| - 1] == '.' then TrimDots(s[..|s| - 1]) else s
  }

  function WorkersDevDomain(subdomain: string): string {
    var trimmed := TrimDots(Trim(subdomain));
    if EndsWith(trimmed, ".workers.dev") then trimmed else trimmed + ".workers.dev"
  }

  function WorkersDevUrl(script: string, subdomain: string): string {
    "https://" + script + "." + WorkersDevDomain(subdomain)
  }

  /** The gateway URL a successful deploy returns. */
  function GatewayUrl(env: Env, components: seq<string>): Option<string> {
    if GATEWAY in components && env.subdomain.Some?
    then Some(WorkersDevUrl(Script(env, GATEWAY), env.subdomain.value))
    else None
  }

  function Deployed(env: Env, components: seq<string>): (Result<Option<string>, DeployError>, Progress) {
    match Prepare(env, components)
    case Err(e) => (Err(e), StartOf(env, components))
    case Ok(bundles) =>
      var p := Uploads(env, components, bundles);
      if p.failed then (Err(UploadFailed), p)
      else
        var (r, q) := ReconcileGateway(env, p, components);
        (if r.Ok? then Ok(GatewayUrl(env, components)) else Err(r.error), q)
  }

  // -------------------------------------------------------- as the source runs it

  method BuildUploadMetadata(env: Env, b: Prepared, available: set<string>, loaders: bool)
      returns (services: seq<ServiceBinding>, bindings: seq<Json>)
    ensures services == Services(env, b, available)
    ensures bindings == Metadata(env, b, available, loaders)
  {
    services := ServiceBindingsForBundle(b.component, b.config.services, env.instance, available);
    bindings := b.config.leading + Mapped(services, ServiceBindingJson);
    if loaders {
      bindings := bindings + Mapped(b.config.loaders, LoaderJson);
    }
    bindings := bindings + b.config.trailing;
  }

  /** The checks in the order they are made; loading and naming stop at the first component
      that fails. */
  method PrepareBundles(env: Env, components: seq<string>) returns (r: Result<seq<Prepared>, DeployError>)
    ensures r == Prepare(env, components)
  {
    hide SortByKey, Script, SelectedAdapters;
    if components == [] {
      return Err(NoComponents);
    }
    if !env.scriptsListed {
      return Err(ListingFailed);
    }
    var deployingGateway := GATEWAY in components;
    if SelectedAdapters(components) != [] && !deployingGateway && Script(env, GATEWAY) !in env.existing {
      return Err(GatewayMissing);
    }
    var prepared: seq<Prepared> := [];
    for i := 0 to |components|
      invariant Load(env, components[..i]) == Ok(prepared)
    {
      assert components[..i + 1][..i] == components[..i];
      var config := env.load(components[i]);
      if config.None? {
        LoadStops(env, components, i + 1);
        return Err(BundleMissing(components[i]));
      }
      prepared := prepared + [Prepared(components[i], config.value)];
    }
    assert components[..|components|] == components;
    for i := 0 to |components|
      invariant FirstUnsupported(env.instance, components) == FirstUnsupported(env.instance, components[i..])
    {
      assert components[i..][1..] == components[i + 1..];
      if ScriptName(env.instance, components[i]).None? {
        return Err(Unsupported(components[i]));
      }
    }
    prepared := SortByKey(prepared, Order);
    var ripgitAvailable := RIPGIT in components || Script(env, RIPGIT) in env.existing;
    if deployingGateway && !ripgitAvailable {
      return Err(RipgitMissing);
    }
    if !env.bucketsReady {
      return Err(BucketsFailed);
    }
    return Ok(prepared);
  }

  lemma {:induction false} LoadStops(env: Env, components: seq<string>, n: nat)
    requires n <= |components| && Load(env, components[..n]).Err?
    ensures Load(env, components) == Load(env, components[..n])
    decreases |components|
  {
    if n < |components| {
      assert components[..|components| - 1][..n] == components[..n];
      LoadStops(env, components[..|components| - 1], n);
    } else {
      assert components[..n] == components;
    }
  }

  /** The Cloudflare account; `log` is what was uploaded to it. */
  class Account {
    var scripts: map<string, Live>
    var log: seq<Upload>

    constructor (scripts: map<string, Live>)
      ensures this.scripts == scripts && log == []
    {
      this.scripts := scripts;
      log := [];
    }

    method UploadWorkerScript(env: Env, b: Prepared, pass: nat, loaders: bool,
        available: set<string>, ghost codemode: bool)
        returns (answer: Answer)
      modifies this
      ensures answer == env.answers(|old(log)|)
      ensures Progress(scripts, log, available, codemode, false)
           == Uploaded(env, Progress(old(scripts), old(log), available, codemode, false), b, pass, loaders)
    {
      hide Metadata, Services, Migrations.UploadMigrations;
      answer := env.answers(|log|);
      var script := Script(env, b.component);
      var services, bindings := BuildUploadMetadata(env, b, available, loaders);
      var migrations := UploadMigrations(env, b, pass);
      var upload := Upload(pass, b.component, script, services, loaders, bindings, migrations, scripts.Keys, answer);
      log := log + [upload];
      if Applies(answer) {
        var tag := if migrations.Some? then Some(migrations.value.newTag)
            else if script in scripts then scripts[script].tag else None;
        scripts := scripts[script := Live(bindings, tag)];
      }
    }

    method ReconcileExistingGateway(env: Env, components: seq<string>,
        ghost available: set<string>, ghost codemode: bool)
        returns (r: Result<(), DeployError>)
      requires Script(env, GATEWAY) in scripts && Script(env, GATEWAY) in env.existing
      requires GATEWAY !in components && SelectedAdapters(components) != []
      modifies this
      ensures (r, Progress(scripts, log, available, codemode, false))
           == ReconcileGateway(env, Progress(old(scripts), old(log), available, codemode, false), components)
    {
      if env.settings.None? {
        return Err(SettingsFailed);
      }
      var live := scripts[Script(env, GATEWAY)];
      var settings := Settings(live.bindings, env.settings.value);
      var patch := GatewayAdapterBindingPatch(settings, components, env.instance);
      match patch
      case Err(e) => return Err(BadSettings(e));
      case Ok(None) => return Ok(());
      case Ok(Some(entries)) =>
        var annotations := WritableVersionAnnotations(settings);
        if annotations.Err? {
          return Err(BadAnnotations(annotations.error));
        }
        if Applies(env.settingsPatch) {
          scripts := scripts[Script(env, GATEWAY) := live.(bindings := Applied(live.bindings, entries))];
        }
        return if env.settingsPatch.Accepted? then Ok(()) else Err(SettingsFailed);
    }

    /** Uploads in order; `available` grows, and CodeMode is dropped if the account rejects it. */
    method UploadFirst(env: Env, bundles: seq<Prepared>, available: set<string>, codemode: bool)
        returns (ok: bool, available': set<string>, codemode': bool)
      modifies this
      ensures var p := FirstPass(env, Progress(old(scripts), old(log), available, codemode, false), bundles);
        && ok == !p.failed && scripts == p.scripts && log == p.log
        && (ok ==> available' == p.available && codemode' == p.codemode)
    {
      hide Uploaded;
      available', codemode' := available, codemode;
      ghost var start := Progress(scripts, log, available, codemode, false);
      for i := 0 to |bundles|
        invariant Progress(scripts, log, available', codemode', false) == FirstPass(env, start, bundles[..i])
      {
        var b := bundles[i];
        assert bundles[..i + 1][..i] == bundles[..i];
        assert FirstPass(env, start, bundles[..i + 1]) == FirstUpload(env, FirstPass(env, start, bundles[..i]), b);
        if !env.assetsSynced(b.component) || !b.config.complete {
          FirstPassStaysFailed(env, start, bundles, i + 1);
          return false, available', codemode';
        }
        var answer := UploadWorkerScript(env, b, 1, b.component != GATEWAY || codemode', available', codemode');
        if !answer.Accepted? {
          if b.component != GATEWAY || env.preference != Auto || !codemode' || !answer.LoaderRejected? {
            FirstPassStaysFailed(env, start, bundles, i + 1);
            return false, available', codemode';
          }
          answer := UploadWorkerScript(env, b, 1, false, available', codemode');
          if !answer.Accepted? {
            FirstPassStaysFailed(env, start, bundles, i + 1);
            return false, available', codemode';
          }
          codemode' := false;
        }
        available' := available' + {Script(env, b.component)};
      }
      assert bundles[..|bundles|] == bundles;
      ok := true;
    }

    /** Uploads everything again, now that every selected worker exists. */
    method UploadSecond(env: Env, bundles: seq<Prepared>, available: set<string>, codemode: bool) returns (ok: bool)
      modifies this
      ensures var p := SecondPass(env, Progress(old(scripts), old(log), available, codemode, false), bundles);
        ok == !p.failed && scripts == p.scripts && log == p.log
    {
      hide Uploaded;
      ghost var start := Progress(scripts, log, available, codemode, false);
      for i := 0 to |bundles|
        invariant Progress(scripts, log, available, codemode, false) == SecondPass(env, start, bundles[..i])
      {
        var b := bundles[i];
        assert bundles[..i + 1][..i] == bundles[..i];
        assert SecondPass(env, start, bundles[..i + 1]) == SecondUpload(env, SecondPass(env, start, bundles[..i]), b);
        if !b.config.complete {
          SecondPassStaysFailed(env, start, bundles, i + 1);
          return false;
        }
        var answer := UploadWorkerScript(env, b, 2, b.component != GATEWAY || codemode, available, codemode);
        if !answer.Accepted? {
          SecondPassStaysFailed(env, start, bundles, i + 1);
          return false;
        }
      }
      assert bundles[..|bundles|] == bundles;
      return true;
    }

    method ApplyDeploy(env: Env, components: seq<string>) returns (r: Result<Option<string>, DeployError>)
      requires scripts == env.existing && log == []
      modifies this
      ensures var d := Deployed(env, components);
        r == d.0 && scripts == d.1.scripts && log == d.1.log
    {
      hide ReconcileGateway, CodemodeForPlan, Prepare, FirstPass, SecondPass;
      var prepared := PrepareBundles(env, components);
      if prepared.Err? {
        return Err(prepared.error);
      }
      var codemode := CodemodeForPlan(GATEWAY in components, env.preference, env.workersPaid);
      ghost var start := StartOf(env, components);
      var ok, available, codemode' := UploadFirst(env, prepared.value, scripts.Keys, codemode);
      ghost var first := FirstPass(env, start, prepared.value);
      if !ok {
        return Err(UploadFailed);
      }
      assert Progress(scripts, log, available, codemode', false) == first;
      ok := UploadSecond(env, prepared.value, available, codemode');
      ghost var second := SecondPass(env, first, prepared.value);
      assert second == Uploads(env, components, prepared.value);
      if !ok {
        return Err(UploadFailed);
      }
      if GATEWAY !in components && SelectedAdapters(components) != [] && Script(env, GATEWAY) in env.existing {
        UploadsKeepScripts(env, components, prepared.value);
        var reconciled := ReconcileExistingGateway(env, components, second.available, second.codemode);
        if reconciled.Err? {
          return Err(reconciled.error);
        }
      } else {
        NothingToReconcile(env, second, components);
      }
      return Ok(GatewayUrl(env, components));
    }
  }

  lemma NothingToReconcile(env: Env, p: Progress, components: seq<string>)
    requires GATEWAY in components || SelectedAdapters(components) == [] || Script(env, GATEWAY) !in env.existing
    ensures ReconcileGateway(env, p, components) == (Ok(()), p)
  {
  }

  lemma {:induction false} FirstPassStaysFailed(env: Env, start: Progress, bundles: seq<Prepared>, n: nat)
    requires n <= |bundles| && FirstPass(env, start, bundles[..n]).failed
    ensures FirstPass(env, start, bundles) == FirstPass(env, start, bundles[..n])
    decreases |bundles|
  {
    if n < |bundles| {
      assert bundles[..|bundles| - 1][..n] == bundles[..n];
      FirstPassStaysFailed(env, start, bundles[..|bundles| - 1], n);
    } else {
      assert bundles[..n] == bundles;
    }
  }

  lemma {:induction false} SecondPassStaysFailed(env: Env, start: Progress, bundles: seq<Prepared>, n: nat)
    requires n <= |bundles| && SecondPass(env, start, bundles[..n]).failed
    ensures SecondPass(env, start, bundles) == SecondPass(env, start, bundles[..n])
    decreases |bundles|
  {
    if n < |bundles| {
      assert bundles[..|bundles| - 1][..n] == bundles[..n];
      SecondPassStaysFailed(env, start, bundles[..|bundles| - 1], n);
    } else {
      assert bundles[..n] == bundles;
    }
  }

  lemma {:induction false} FirstPassKeepsScripts(env: Env, start: Progress, bundles: seq<Prepared>)
    ensures start.scripts.Keys <= FirstPass(env, start, bundles).scripts.Keys
  {
    hide Metadata, Services, UploadMigrations, TagAfter;
    if bundles != [] {
      FirstPassKeepsScripts(env, start, bundles[..|bundles| - 1]);
    }
  }

  lemma {:induction false} SecondPassKeepsScripts(env: Env, start: Progress, bundles: seq<Prepared>)
    ensures start.scripts.Keys <= SecondPass(env, start, bundles).scripts.Keys
  {
    hide Metadata, Services, UploadMigrations, TagAfter;
    if bundles != [] {
      SecondPassKeepsScripts(env, start, bundles[..|bundles| - 1]);
    }
  }

  lemma UploadsKeepScripts(env: Env, components: seq<string>, bundles: seq<Prepared>)
    ensures env.existing.Keys <= Uploads(env, components, bundles).scripts.Keys
  {
    FirstPassKeepsScripts(env, StartOf(env, components), bundles);
    SecondPassKeepsScripts(env, FirstPass(env, StartOf(env, components), bundles), bundles);
  }
}
