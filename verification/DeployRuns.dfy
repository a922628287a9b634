/** What the log of a deploy says about the account, and how a deploy ends. */
module DeployRuns {
  import opened Common
  import opened Json
  import opened Sorting
  import opened Naming
  import opened Bindings
  import opened GatewayPatch
  import opened Deploy
  import opened DeployProperties
  import Migrations

  // ------------------------------------------------- the account and the log

  /** The upload went to the component's worker, with the bindings its services, its loaders and
      the rest of its configuration make up. */
  ghost predicate Honest(env: Env, u: Upload) {
    && env.load(u.component).Some? && ScriptName(env.instance, u.component) == Some(u.script)
    && var c := env.load(u.component).value;
      u.bindings == c.leading + Mapped(u.services, ServiceBindingJson)
                    + (if u.loaders then Mapped(c.loaders, LoaderJson) else []) + c.trailing
  }

  /** The account took the upload, whether or not it was reported as accepted. */
  predicate WasApplied(u: Upload) {
    u.answer == Accepted || u.answer == Refused(true)
  }

  /** The scripts the account has after the uploads. */
  function ScriptsAfter(env: Env, log: seq<Upload>): set<string> {
    if log == [] then env.existing.Keys
    else
      var u := log[|log| - 1];
      ScriptsAfter(env, log[..|log| - 1]) + if WasApplied(u) then {u.script} else {}
  }

  /** The last upload to the script that was applied. */
  function LastApplied(log: seq<Upload>, script: string): Option<Upload> {
    if log == [] then None
    else
      var u := log[|log| - 1];
      if WasApplied(u) && u.script == script then Some(u) else LastApplied(log[..|log| - 1], script)
  }

  /** The tag the applied uploads leave. */
  function TagAfterLog(env: Env, log: seq<Upload>, script: string): Option<string> {
    if log == [] then ExistingTag(env, script)
    else
      var u := log[|log| - 1];
      if WasApplied(u) && u.script == script && u.migrations.Some? then Some(u.migrations.value.newTag)
      else TagAfterLog(env, log[..|log| - 1], script)
  }

  ghost predicate EntryExplained(env: Env, log: seq<Upload>, i: nat)
    requires i < |log|
  {
    Honest(env, log[i]) && log[i].known == ScriptsAfter(env, log[..i]) && log[i].answer == env.answers(i)
  }

  ghost predicate ScriptExplained(env: Env, p: Progress, s: string) {
    match LastApplied(p.log, s)
    case None => (s in p.scripts <==> s in env.existing) && (s in p.scripts ==> p.scripts[s] == env.existing[s])
    case Some(u) => s in p.scripts && p.scripts[s] == Live(u.bindings, TagAfterLog(env, p.log, s))
  }

  /** Every entry of the log is what was really sent to the account as it then was, and every
      script is what the last upload applied to it made it. */
  ghost predicate Explained(env: Env, p: Progress) {
    && (forall i :: 0 <= i < |p.log| ==> EntryExplained(env, p.log, i))
    && p.scripts.Keys == ScriptsAfter(env, p.log)
    && (forall s :: ScriptExplained(env, p, s))
  }

  lemma UploadedIsExplained(env: Env, p: Progress, b: Prepared, pass: nat, loaders: bool)
    requires Explained(env, p) && env.load(b.component) == Some(b.config) && Supported(b.component)
    ensures Explained(env, Uploaded(env, p, b, pass, loaders))
  {
    hide Services, UploadMigrations, Metadata;
    var q, u := Uploaded(env, p, b, pass, loaders), Sent(env, p, b, pass, loaders);
    assert q.log[..|p.log|] == p.log;
    SentIsHonest(env, p, b, pass, loaders);
    forall i | 0 <= i < |q.log| ensures EntryExplained(env, q.log, i) {
      if i < |p.log| {
        assert EntryExplained(env, p.log, i);
        assert q.log[..i] == p.log[..i];
      }
    }
    forall s ensures ScriptExplained(env, q, s) {
      assert ScriptExplained(env, p, s);
      NeverAppliedKeepsTag(env, p.log, s);
    }
  }

  lemma {:induction false} NeverAppliedKeepsTag(env: Env, log: seq<Upload>, s: string)
    ensures LastApplied(log, s).None? ==> TagAfterLog(env, log, s) == ExistingTag(env, s)
  {
    if log != [] {
      NeverAppliedKeepsTag(env, log[..|log| - 1], s);
    }
  }

  lemma SentIsHonest(env: Env, p: Progress, b: Prepared, pass: nat, loaders: bool)
    requires env.load(b.component) == Some(b.config) && Supported(b.component)
    ensures Honest(env, Sent(env, p, b, pass, loaders))
  {
    hide Services, UploadMigrations;
    SupportedHasScript(env.instance, b.component);
  }

  lemma FirstUploadIsExplained(env: Env, p: Progress, b: Prepared)
    requires Explained(env, p) && env.load(b.component) == Some(b.config) && Supported(b.component)
    ensures Explained(env, FirstUpload(env, p, b))
  {
    hide Uploaded;
    var q := Uploaded(env, p, b, 1, LoadersWanted(p, b));
    UploadedIsExplained(env, p, b, 1, LoadersWanted(p, b));
    UploadedIsExplained(env, q, b, 1, false);
    SameLogSameAccount(env, p, FirstUpload(env, p, b));
    SameLogSameAccount(env, q, FirstUpload(env, p, b));
    SameLogSameAccount(env, Uploaded(env, q, b, 1, false), FirstUpload(env, p, b));
  }

  lemma SameLogSameAccount(env: Env, p: Progress, q: Progress)
    requires Explained(env, p)
    ensures p.log == q.log && p.scripts == q.scripts ==> Explained(env, q)
  {
    if p.log == q.log && p.scripts == q.scripts {
      forall s ensures ScriptExplained(env, q, s) {
        assert ScriptExplained(env, p, s);
      }
    }
  }

  ghost predicate Loaded(env: Env, bundles: seq<Prepared>) {
    forall b :: b in bundles ==> env.load(b.component) == Some(b.config) && Supported(b.component)
  }

  lemma {:induction false} FirstPassIsExplained(env: Env, start: Progress, bundles: seq<Prepared>)
    requires Explained(env, start) && Loaded(env, bundles)
    ensures Explained(env, FirstPass(env, start, bundles))
  {
    hide FirstUpload, Explained;
    if bundles != [] {
      var n := |bundles| - 1;
      FirstPassIsExplained(env, start, bundles[..n]);
      FirstUploadIsExplained(env, FirstPass(env, start, bundles[..n]), bundles[n]);
    }
  }

  lemma SecondUploadIsExplained(env: Env, p: Progress, b: Prepared)
    requires Explained(env, p) && env.load(b.component) == Some(b.config) && Supported(b.component)
    ensures Explained(env, SecondUpload(env, p, b))
  {
    hide Uploaded;
    var q := Uploaded(env, p, b, 2, LoadersWanted(p, b));
    UploadedIsExplained(env, p, b, 2, LoadersWanted(p, b));
    SameLogSameAccount(env, p, SecondUpload(env, p, b));
    SameLogSameAccount(env, q, SecondUpload(env, p, b));
  }

  lemma {:induction false} SecondPassIsExplained(env: Env, start: Progress, bundles: seq<Prepared>)
    requires Explained(env, start) && Loaded(env, bundles)
    ensures Explained(env, SecondPass(env, start, bundles))
  {
    hide SecondUpload, Explained;
    if bundles != [] {
      var n := |bundles| - 1;
      SecondPassIsExplained(env, start, bundles[..n]);
      SecondUploadIsExplained(env, SecondPass(env, start, bundles[..n]), bundles[n]);
    }
  }

  lemma StartIsExplained(env: Env, components: seq<string>)
    ensures Explained(env, StartOf(env, components))
  {
    forall s ensures ScriptExplained(env, StartOf(env, components), s) {}
  }

  /** After the uploads of any run, failed or not, log and account agree. */
  lemma UploadsAreExplained(env: Env, components: seq<string>)
    requires Prepare(env, components).Ok?
    ensures Explained(env, Uploads(env, components, Prepare(env, components).value))
  {
    hide Explained, FirstPass, SecondPass, Prepare;
    var bundles := Prepare(env, components).value;
    var start := StartOf(env, components);
    PrepareYields(env, components);
    StartIsExplained(env, components);
    FirstPassIsExplained(env, start, bundles);
    SecondPassIsExplained(env, FirstPass(env, start, bundles), bundles);
  }

  // ------------------------------------------------------- how the uploads end

  /** The rejection CodeMode is given up for. */
  predicate Forgiven(env: Env, u: Upload) {
    u.answer.LoaderRejected? && u.pass == 1 && u.component == GATEWAY && u.loaders && env.preference == Auto
  }

  predicate AllFine(env: Env, log: seq<Upload>) {
    forall u :: u in log ==> u.answer.Accepted? || Forgiven(env, u)
  }

  /** Every bundle's metadata can be built and, in the first pass, its assets synchronised. */
  predicate Ready(env: Env, bundles: seq<Prepared>) {
    forall b :: b in bundles ==> b.config.complete && env.assetsSynced(b.component)
  }

  lemma UploadedEntry(env: Env, p: Progress, b: Prepared, pass: nat, loaders: bool)
    ensures var q := Uploaded(env, p, b, pass, loaders);
      && |q.log| == |p.log| + 1 && q.log[..|p.log|] == p.log
      && var u := q.log[|p.log|];
        && u.answer == env.answers(|p.log|) && u.pass == pass && u.component == b.component && u.loaders == loaders
        && (AllFine(env, q.log) <==> AllFine(env, p.log) && (u.answer.Accepted? || Forgiven(env, u)))
  {
    hide Metadata, Services, UploadMigrations;
    var q := Uploaded(env, p, b, pass, loaders);
    assert q.log == p.log + [q.log[|p.log|]];
  }

  lemma FirstUploadFailsExactly(env: Env, p: Progress, b: Prepared)
    requires !p.failed && AllFine(env, p.log)
    ensures var q := FirstUpload(env, p, b);
      q.failed <==> !(b.config.complete && env.assetsSynced(b.component)) || !AllFine(env, q.log)
  {
    hide Uploaded, AllFine;
    var q := Uploaded(env, p, b, 1, LoadersWanted(p, b));
    UploadedEntry(env, p, b, 1, LoadersWanted(p, b));
    UploadedEntry(env, q, b, 1, false);
    KeepsFlags(env, p, b, 1, LoadersWanted(p, b));
    KeepsFlags(env, q, b, 1, false);
  }

  lemma KeepsFlags(env: Env, p: Progress, b: Prepared, pass: nat, loaders: bool)
    ensures var q := Uploaded(env, p, b, pass, loaders);
      q.failed == p.failed && q.codemode == p.codemode && q.available == p.available
  {
  }

  lemma {:induction false} FirstPassFailsExactly(env: Env, start: Progress, bundles: seq<Prepared>)
    requires start.log == [] && !start.failed
    ensures var p := FirstPass(env, start, bundles);
      p.failed <==> !Ready(env, bundles) || !AllFine(env, p.log)
  {
    hide FirstUpload, AllFine;
    if bundles == [] {
      NothingWrong(env);
    } else {
      var n := |bundles| - 1;
      var p := FirstPass(env, start, bundles[..n]);
      FirstPassFailsExactly(env, start, bundles[..n]);
      ReadyLast(env, bundles);
      if p.failed {
        FailedStays(env, p, bundles[n]);
      } else {
        FirstUploadFailsExactly(env, p, bundles[n]);
      }
    }
  }

  lemma NothingWrong(env: Env)
    ensures AllFine(env, [])
  {
  }

  lemma ReadyLast(env: Env, bundles: seq<Prepared>)
    requires bundles != []
    ensures var n := |bundles| - 1;
      Ready(env, bundles) <==>
        Ready(env, bundles[..n]) && bundles[n].config.complete && env.assetsSynced(bundles[n].component)
  {
    assert bundles == bundles[..|bundles| - 1] + [bundles[|bundles| - 1]];
  }

  lemma FailedStays(env: Env, p: Progress, b: Prepared)
    ensures p.failed ==> FirstUpload(env, p, b) == p && SecondUpload(env, p, b) == p
  {
  }

  lemma {:induction false} SecondPassFailsExactly(env: Env, start: Progress, bundles: seq<Prepared>)
    requires !start.failed && AllFine(env, start.log) && Ready(env, bundles)
    ensures var p := SecondPass(env, start, bundles);
      p.failed <==> !AllFine(env, p.log)
  {
    hide AllFine, Uploaded;
    if bundles != [] {
      var n := |bundles| - 1;
      var p := SecondPass(env, start, bundles[..n]);
      ReadyLast(env, bundles);
      SecondPassFailsExactly(env, start, bundles[..n]);
      FailedStays(env, p, bundles[n]);
      UploadedEntry(env, p, bundles[n], 2, LoadersWanted(p, bundles[n]));
      KeepsFlags(env, p, bundles[n], 2, LoadersWanted(p, bundles[n]));
    }
  }

  /** The uploads fail exactly when a bundle is not ready, or some upload was neither accepted nor
      the one rejection of the worker loaders that Auto falls back from. */
  lemma UploadsFailExactly(env: Env, components: seq<string>, bundles: seq<Prepared>)
    ensures var p := Uploads(env, components, bundles);
      p.failed <==> !Ready(env, bundles) || !AllFine(env, p.log)
  {
    hide FirstPass, SecondPass, AllFine, Ready;
    var start := StartOf(env, components);
    var first := FirstPass(env, start, bundles);
    FirstPassFailsExactly(env, start, bundles);
    if !first.failed {
      SecondPassFailsExactly(env, first, bundles);
    }
  }

  // --------------------------------------------------- every bundle, twice, in order

  /** The accepted uploads, as pass and component. */
  function AcceptedIn(log: seq<Upload>): seq<(nat, string)> {
    if log == [] then []
    else
      var u := log[|log| - 1];
      AcceptedIn(log[..|log| - 1]) + if u.answer.Accepted? then [(u.pass, u.component)] else []
  }

  function InPass(pass: nat, bundles: seq<Prepared>): (r: seq<(nat, string)>)
    ensures |r| == |bundles| && forall i :: 0 <= i < |bundles| ==> r[i] == (pass, bundles[i].component)
  {
    seq(|bundles|, i requires 0 <= i < |bundles| => (pass, bundles[i].component))
  }

  lemma AcceptedGrows(env: Env, p: Progress, b: Prepared, pass: nat, loaders: bool)
    ensures AcceptedIn(Uploaded(env, p, b, pass, loaders).log)
         == AcceptedIn(p.log) + if env.answers(|p.log|).Accepted? then [(pass, b.component)] else []
  {
    hide Metadata, Services, UploadMigrations;
    var q := Uploaded(env, p, b, pass, loaders);
    assert q.log[..|p.log|] == p.log;
  }

  lemma {:induction false} FirstPassAccepts(env: Env, start: Progress, bundles: seq<Prepared>)
    requires !FirstPass(env, start, bundles).failed
    ensures AcceptedIn(FirstPass(env, start, bundles).log) == AcceptedIn(start.log) + InPass(1, bundles)
  {
    hide AcceptedIn, Uploaded;
    if bundles == [] {
      assert AcceptedIn(start.log) + InPass(1, bundles) == AcceptedIn(start.log);
    } else {
      var n := |bundles| - 1;
      var p, b := FirstPass(env, start, bundles[..n]), bundles[n];
      FailedStays(env, p, b);
      FirstPassAccepts(env, start, bundles[..n]);
      AcceptedGrows(env, p, b, 1, LoadersWanted(p, b));
      AcceptedGrows(env, Uploaded(env, p, b, 1, LoadersWanted(p, b)), b, 1, false);
      assert InPass(1, bundles) == InPass(1, bundles[..n]) + [(1, b.component)];
    }
  }

  lemma {:induction false} SecondPassAccepts(env: Env, start: Progress, bundles: seq<Prepared>)
    requires !SecondPass(env, start, bundles).failed
    ensures AcceptedIn(SecondPass(env, start, bundles).log) == AcceptedIn(start.log) + InPass(2, bundles)
  {
    hide AcceptedIn, Uploaded;
    if bundles == [] {
      assert AcceptedIn(start.log) + InPass(2, bundles) == AcceptedIn(start.log);
    } else {
      var n := |bundles| - 1;
      var p, b := SecondPass(env, start, bundles[..n]), bundles[n];
      FailedStays(env, p, b);
      SecondPassAccepts(env, start, bundles[..n]);
      AcceptedGrows(env, p, b, 2, LoadersWanted(p, b));
      assert InPass(2, bundles) == InPass(2, bundles[..n]) + [(2, b.component)];
    }
  }

  /** Uploads that do not fail get every bundle accepted once in each pass, in order, and the
      whole first pass before the second. */
  lemma EveryBundleTwiceInOrder(env: Env, components: seq<string>, bundles: seq<Prepared>)
    requires !Uploads(env, components, bundles).failed
    ensures AcceptedIn(Uploads(env, components, bundles).log) == InPass(1, bundles) + InPass(2, bundles)
  {
    hide FirstPass, SecondPass;
    var start := StartOf(env, components);
    FirstPassAccepts(env, start, bundles);
    SecondPassAccepts(env, FirstPass(env, start, bundles), bundles);
    assert AcceptedIn(start.log) + InPass(1, bundles) == InPass(1, bundles);
  }

  // ------------------------------------------------------- the answer of a deploy

  /** The first component in the list that is refused. */
  predicate FirstSuch(components: seq<string>, c: string, refused: string -> bool) {
    exists i :: 0 <= i < |components| && components[i] == c && refused(c) &&
      forall k :: 0 <= k < i ==> !refused(components[k])
  }

  lemma {:induction false} LoadFailsAtFirst(env: Env, components: seq<string>)
    requires Load(env, components).Err?
    ensures Load(env, components).error.BundleMissing?
    ensures FirstSuch(components, Load(env, components).error.component, c => env.load(c).None?)
  {
    var n := |components| - 1;
    if Load(env, components[..n]).Err? {
      LoadFailsAtFirst(env, components[..n]);
      var c := Load(env, components).error.component;
      var i :| 0 <= i < n && components[..n][i] == c && forall k :: 0 <= k < i ==> env.load(components[..n][k]).Some?;
      forall k | 0 <= k < i ensures env.load(components[k]).Some? { assert components[..n][k] == components[k]; }
      assert components[i] == c;
    } else {
      LoadYields(env, components[..n]);
      forall k | 0 <= k < n ensures env.load(components[k]).Some? { assert components[..n][k] == components[k]; }
    }
  }

  lemma {:induction false} UnsupportedIsFirst(instance: string, components: seq<string>)
    requires FirstUnsupported(instance, components).Some?
    ensures FirstSuch(components, FirstUnsupported(instance, components).value, c => !Supported(c))
  {
    hide Supported;
    SupportedHasScript(instance, components[0]);
    if Supported(components[0]) {
      UnsupportedIsFirst(instance, components[1..]);
      var c := FirstUnsupported(instance, components).value;
      var i :| 0 <= i < |components[1..]| && components[1..][i] == c && !Supported(c) &&
        forall k :: 0 <= k < i ==> Supported(components[1..][k]);
      forall k | 0 <= k < i + 1 ensures Supported(components[k]) {
        if k > 0 { assert components[k] == components[1..][k - 1]; }
      }
      assert components[i + 1] == c;
    }
  }

  predicate GatewayKnown(env: Env, components: seq<string>) {
    && env.scriptsListed
    && (SelectedAdapters(components) != [] ==> GATEWAY in components || env.instance in env.existing)
  }

  predicate AllLoad(env: Env, components: seq<string>) {
    forall c :: c in components ==> env.load(c).Some?
  }

  /** What is the matter when the checks refuse a deploy: the error names the first reason, in the
      order of the checks, and of several components the first in the list. */
  lemma PrepareRefusesBecause(env: Env, components: seq<string>)
    requires Prepare(env, components).Err?
    ensures match Prepare(env, components).error
      case NoComponents => components == []
      case ListingFailed => components != [] && !env.scriptsListed
      case GatewayMissing => env.scriptsListed && SelectedAdapters(components) != [] && GATEWAY !in components &&
                             env.instance !in env.existing
      case BundleMissing(c) => GatewayKnown(env, components) && FirstSuch(components, c, x => env.load(x).None?)
      case Unsupported(c) =>
        GatewayKnown(env, components) && AllLoad(env, components) && FirstSuch(components, c, x => !Supported(x))
      case RipgitMissing =>
        GatewayKnown(env, components) && AllLoad(env, components) && (forall c :: c in components ==> Supported(c)) &&
        GATEWAY in components && RIPGIT !in components && Script(env, RIPGIT) !in env.existing
      case BucketsFailed =>
        GatewayKnown(env, components) && AllLoad(env, components) && (forall c :: c in components ==> Supported(c)) &&
        (GATEWAY in components ==> RIPGIT in components || Script(env, RIPGIT) in env.existing) && !env.bucketsReady
      case _ => false
  {
    hide SelectedAdapters;
    assert Script(env, GATEWAY) == env.instance;
    if components != [] && env.scriptsListed && GatewayDependencyMet(env, components) {
      LoadSucceedsExactly(env, components);
      if Load(env, components).Err? {
        LoadFailsAtFirst(env, components);
      } else if FirstUnsupported(env.instance, components).Some? {
        UnsupportedIsFirst(env.instance, components);
      } else {
        NoneUnsupported(env.instance, components);
      }
    }
  }

  /** What a deploy that got past its checks answers. */
  lemma DeployAnswers(env: Env, components: seq<string>)
    requires Prepare(env, components).Ok?
    ensures var (r, p) := Deployed(env, components);
      var before := Uploads(env, components, Prepare(env, components).value);
      && (r == Err(UploadFailed) <==> !Ready(env, Prepare(env, components).value) || !AllFine(env, p.log))
      && (r.Err? && !r.error.UploadFailed? ==>
            env.instance in before.scripts &&
            var live := before.scripts[env.instance].bindings;
            match r.error
            case SettingsFailed => env.settings.None? || !env.settingsPatch.Accepted?
            case BadSettings(NoBindings) => env.settings.Some? && !env.settings.value.listsBindings
            case BadSettings(e) => env.settings.Some? && FirstFault(live) == Some(e)
            case BadAnnotations(_) => env.settings.Some? && !AnnotationsWellFormed(Settings(live, env.settings.value))
            case _ => false)
  {
    hide Uploads, Prepare, AllFine, Ready, Applied, AnnotationsWellFormed, SelectedAdapters;
    hide WritableAnnotations, FirstFault, Desired;
    var bundles := Prepare(env, components).value;
    var p := Uploads(env, components, bundles);
    UploadsFailExactly(env, components, bundles);
    ReconcileKeepsLog(env, p, components);
    assert Script(env, GATEWAY) == env.instance;
    if env.settings.Some? && env.instance in p.scripts {
      var live := p.scripts[env.instance].bindings;
      AnnotationsAreCopied(Settings(live, env.settings.value));
      FaultIsFirst(live);
    }
  }
}
