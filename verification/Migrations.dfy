/**
 Durable Object migrations (cli/src/deploy.rs): which steps an upload carries,
 given the migration list of the bundle and the tag the live script is at.
 */
module Migrations {
  import opened Common
  import opened Json

  function MigrationTag(step: Json): Option<string> {
    GetString(step, "tag")
  }

  function StepWithoutTag(step: Json): Option<Json> {
    if step.JObject? then Some(JObject(step.fields - {"tag"})) else None
  }

  /** The steps as they are sent; entries that are not objects are dropped. */
  function Strip(steps: seq<Json>): seq<Json> {
    if steps == [] then []
    else
      var rest := Strip(steps[1..]);
      match StepWithoutTag(steps[0])
      case Some(step) => [step] + rest
      case None => rest
  }

  datatype Payload = Payload(oldTag: Option<string>, newTag: string, steps: seq<Json>)

  /** The position of the first step with the given tag. */
  function FindTag(steps: seq<Json>, tag: string): (r: Option<nat>)
    ensures r.Some? ==> r.value < |steps|
  {
    if steps == [] then None
    else if MigrationTag(steps[0]) == Some(tag) then Some(0)
    else
      match FindTag(steps[1..], tag)
      case Some(i) => Some(i + 1)
      case None => None
  }

  lemma {:induction false} FindTagIsFirst(steps: seq<Json>, tag: string)
    ensures match FindTag(steps, tag)
      case Some(i) => i < |steps| && MigrationTag(steps[i]) == Some(tag) &&
                      forall k :: 0 <= k < i ==> MigrationTag(steps[k]) != Some(tag)
      case None => forall k :: 0 <= k < |steps| ==> MigrationTag(steps[k]) != Some(tag)
  {
    if steps != [] {
      FindTagIsFirst(steps[1..], tag);
      forall k | 0 < k < |steps| ensures steps[k] == steps[1..][k - 1] {}
    }
  }

  function BuildMigrationsPayload(config: seq<Json>, currentTag: Option<string>): Option<Payload> {
    if config == [] || MigrationTag(config[|config| - 1]).None? then None
    else
      var newTag := MigrationTag(config[|config| - 1]).value;
      var all := Strip(config);
      if all == [] then None
      else if currentTag.None? then Some(Payload(None, newTag, all))
      else
        match FindTag(config, currentTag.value)
        case None => Some(Payload(currentTag, newTag, all))
        case Some(index) =>
          if index == |config| - 1 then None
          else
            var steps := Strip(config[index + 1..]);
            if steps == [] then None else Some(Payload(currentTag, newTag, steps))
  }

  const AUTO_TAG := "auto-v1"

  /** The order of strings. */
  predicate Less(a: string, b: string) {
    b != "" && (a == "" || a[0] < b[0] || (a[0] == b[0] && Less(a[1..], b[1..])))
  }

  /** Puts a name into an ascending list, unless it is there. */
  function InsertName(x: string, names: seq<string>): seq<string> {
    if names == [] then [x]
    else if x == names[0] then names
    else if Less(x, names[0]) then [x] + names
    else [names[0]] + InsertName(x, names[1..])
  }

  /** The names in ascending order, each once. */
  function SortedNames(names: seq<string>): seq<string> {
    if names == [] then [] else InsertName(names[0], SortedNames(names[1..]))
  }

  /** The inferred migration for Durable Object classes of a script without explicit ones. */
  function BuildInferredMigration(classes: seq<string>): Option<Payload> {
    if classes == [] then None else Some(Payload(None, AUTO_TAG, [InferredStep(classes)]))
  }

  function InferredStep(classes: seq<string>): Json {
    var names := SortedNames(classes);
    JObject(map["new_sqlite_classes" := JArray(seq(|names|, i requires 0 <= i < |names| => JString(names[i])))])
  }

  /** The bundle's migration list and the class names of its Durable Object bindings. */
  datatype Bundle = Bundle(migrations: seq<Json>, classes: seq<string>)

  /** The migration entry of the first-pass upload. */
  function UploadMigrations(bundle: Bundle, currentTag: Option<string>, scriptExists: bool): Option<Payload> {
    var explicit := BuildMigrationsPayload(bundle.migrations, currentTag);
    if explicit.Some? then explicit
    else if !scriptExists then BuildInferredMigration(bundle.classes)
    else None
  }

  // --------------------------------------------------------- runs of deploys

  /** The live script: whether it exists, its migration tag, the steps it was sent so far. */
  datatype Script = Script(exists_: bool, tag: Option<string>, applied: seq<Json>)

  const FRESH := Script(false, None, [])

  /** One successful deploy: the accepted upload's steps run and its new tag sticks. */
  function Deploy(script: Script, bundle: Bundle): Script {
    match UploadMigrations(bundle, script.tag, script.exists_)
    case None => Script(true, script.tag, script.applied)
    case Some(p) => Script(true, Some(p.newTag), script.applied + p.steps)
  }

  function DeployAll(bundles: seq<Bundle>): Script {
    if bundles == [] then FRESH
    else Deploy(DeployAll(bundles[..|bundles| - 1]), bundles[|bundles| - 1])
  }

  /** Every step is an object with a tag of its own. */
  ghost predicate DistinctTags(config: seq<Json>) {
    && (forall i :: 0 <= i < |config| ==> MigrationTag(config[i]).Some?)
    && (forall i, j :: 0 <= i < j < |config| ==> MigrationTag(config[i]) != MigrationTag(config[j]))
  }

  /** Each release's list is the previous one with steps appended. */
  ghost predicate Extending(bundles: seq<Bundle>) {
    && (forall i :: 0 <= i < |bundles| ==> DistinctTags(bundles[i].migrations))
    && (forall i :: 0 <= i < |bundles| - 1 ==> bundles[i].migrations <= bundles[i + 1].migrations)
  }

  lemma {:induction false} StripConcat(a: seq<Json>, b: seq<Json>)
    ensures Strip(a + b) == Strip(a) + Strip(b)
  {
    if a == [] {
      assert a + b == b;
    } else {
      assert (a + b)[1..] == a[1..] + b;
      StripConcat(a[1..], b);
    }
  }

  lemma {:induction false} StripLength(steps: seq<Json>)
    requires forall i :: 0 <= i < |steps| ==> MigrationTag(steps[i]).Some?
    ensures |Strip(steps)| == |steps|
  {
    if steps != [] {
      assert MigrationTag(steps[0]).Some?;
      StripLength(steps[1..]);
    }
  }

  /** From the state a list's prefix leaves behind, exactly the missing steps are sent. */
  lemma PayloadSendsTheRest(config: seq<Json>, done: nat)
    requires DistinctTags(config) && done <= |config|
    ensures var current := if done == 0 then None else MigrationTag(config[done - 1]);
      var p := BuildMigrationsPayload(config, current);
      if done == |config| then p.None?
      else p.Some? && p.value.steps == Strip(config[done..]) && p.value.oldTag == current &&
           Some(p.value.newTag) == MigrationTag(config[|config| - 1])
  {
    StripLength(config);
    StripLength(config[done..]);
    if done == 0 {
      assert config[0..] == config;
    } else {
      FindTagIsFirst(config, MigrationTag(config[done - 1]).value);
      assert FindTag(config, MigrationTag(config[done - 1]).value) == Some(done - 1);
    }
  }

  /** A tag the list does not know makes the whole list be sent again. */
  lemma UnknownTagSendsEverything(config: seq<Json>, tag: string)
    requires config != [] && DistinctTags(config)
    requires forall i :: 0 <= i < |config| ==> MigrationTag(config[i]) != Some(tag)
    ensures BuildMigrationsPayload(config, Some(tag))
         == Some(Payload(Some(tag), MigrationTag(config[|config| - 1]).value, Strip(config)))
  {
    StripLength(config);
    FindTagIsFirst(config, tag);
  }

  /** The inferred migration fires only on the very first deploy, without an explicit list. */
  predicate InferredFires(bundles: seq<Bundle>) {
    bundles != [] && bundles[0].migrations == [] && bundles[0].classes != []
  }

  function InferredSteps(bundles: seq<Bundle>): seq<Json> {
    if InferredFires(bundles) then [InferredStep(bundles[0].classes)] else []
  }

  function LastConfig(bundles: seq<Bundle>): seq<Json> {
    if bundles == [] then [] else bundles[|bundles| - 1].migrations
  }

  function TagOf(config: seq<Json>): Option<string> {
    if config == [] then None else MigrationTag(config[|config| - 1])
  }

  lemma DeployContinues(script: Script, last: seq<Json>, bundle: Bundle)
    requires DistinctTags(bundle.migrations) && last <= bundle.migrations
    requires script.tag == TagOf(last)
    requires script.exists_ || (last == [] && (bundle.migrations != [] || bundle.classes == []))
    ensures Deploy(script, bundle)
         == Script(true, TagOf(bundle.migrations), script.applied + Strip(bundle.migrations[|last|..]))
  {
    PayloadSendsTheRest(bundle.migrations, |last|);
    assert Strip([]) == [] && script.applied + [] == script.applied;
  }

  /** The steps up to and including the one that carries the inferred tag. */
  function UpToAuto(config: seq<Json>): (n: nat)
    ensures n <= |config|
  {
    match FindTag(config, AUTO_TAG)
    case Some(i) => i + 1
    case None => 0
  }

  /** The first explicit list of the run. */
  function FirstConfig(bundles: seq<Bundle>): seq<Json> {
    if bundles == [] then []
    else
      var earlier := FirstConfig(bundles[..|bundles| - 1]);
      if earlier != [] then earlier else bundles[|bundles| - 1].migrations
  }

  /** How many steps are taken for applied because the inferred migration left their tag. */
  function Skipped(bundles: seq<Bundle>): nat {
    if InferredFires(bundles) then UpToAuto(FirstConfig(bundles)) else 0
  }

  lemma DeployAfterInferred(script: Script, bundle: Bundle)
    requires DistinctTags(bundle.migrations)
    requires script.exists_ && script.tag == Some(AUTO_TAG)
    ensures Deploy(script, bundle)
         == Script(true, if bundle.migrations == [] then Some(AUTO_TAG) else TagOf(bundle.migrations),
                   script.applied + Strip(bundle.migrations[UpToAuto(bundle.migrations)..]))
  {
    var config, n := bundle.migrations, UpToAuto(bundle.migrations);
    FindTagIsFirst(config, AUTO_TAG);
    assert Strip([]) == [] && script.applied + [] == script.applied;
    if n > 0 {
      PayloadSendsTheRest(config, n);
    } else {
      assert config[0..] == config;
      if config != [] {
        UnknownTagSendsEverything(config, AUTO_TAG);
      }
    }
  }

  lemma {:induction false} FirstIsPrefixOfLast(bundles: seq<Bundle>)
    requires Extending(bundles)
    ensures FirstConfig(bundles) <= LastConfig(bundles)
    ensures FirstConfig(bundles) == [] <==> LastConfig(bundles) == []
  {
    if bundles != [] {
      ExtendingPrefix(bundles);
      FirstIsPrefixOfLast(bundles[..|bundles| - 1]);
    }
  }

  lemma ExtendingPrefix(bundles: seq<Bundle>)
    requires Extending(bundles) && bundles != []
    ensures var before, bundle := bundles[..|bundles| - 1], bundles[|bundles| - 1];
      && Extending(before)
      && DistinctTags(bundle.migrations)
      && LastConfig(before) <= bundle.migrations
      && (before != [] ==>
            InferredFires(before) == InferredFires(bundles) && InferredSteps(before) == InferredSteps(bundles))
  {
    var n := |bundles| - 1;
    if n > 0 {
      assert bundles[n - 1].migrations <= bundles[n - 1 + 1].migrations;
    }
  }

  /** What a run of deploys leaves: the inferred step if any, then the last list without what
      was skipped, and the last list's tag. */
  ghost predicate LeftBy(s: Script, bundles: seq<Bundle>) {
    && s.exists_ == (bundles != [])
    && Skipped(bundles) <= |LastConfig(bundles)|
    && s.applied == InferredSteps(bundles) + Strip(LastConfig(bundles)[Skipped(bundles)..])
    && s.tag == if LastConfig(bundles) == [] && InferredFires(bundles) then Some(AUTO_TAG)
        else TagOf(LastConfig(bundles))
  }

  lemma LastDeployLeaves(before: seq<Bundle>, s: Script, bundles: seq<Bundle>)
    requires Extending(bundles) && bundles != [] && before == bundles[..|bundles| - 1]
    requires LeftBy(s, before)
    requires before == [] ==> s == FRESH
    ensures LeftBy(Deploy(s, bundles[|bundles| - 1]), bundles)
  {
    hide Deploy, Strip;
    ExtendingPrefix(bundles);
    FirstIsPrefixOfLast(before);
    FirstIsPrefixOfLast(bundles);
    var bundle, last := bundles[|bundles| - 1], LastConfig(before);
    NothingToStrip();
    if before == [] && InferredFires(bundles) {
      FirstDeployInfers(bundle);
      assert bundle.migrations[Skipped(bundles)..] == [];
    } else if last == [] && InferredFires(bundles) {
      DeployAfterInferred(s, bundle);
      assert last[Skipped(before)..] == [];
    } else {
      DeployContinues(s, last, bundle);
      RestExtends(last, bundle.migrations, Skipped(bundles), InferredSteps(before));
      assert InferredSteps(bundles) == InferredSteps(before);
    }
  }

  lemma NothingToStrip()
    ensures Strip([]) == []
  {
  }

  lemma FirstDeployInfers(bundle: Bundle)
    requires bundle.migrations == [] && bundle.classes != []
    ensures Deploy(FRESH, bundle) == Script(true, Some(AUTO_TAG), [InferredStep(bundle.classes)])
  {
  }

  lemma RestExtends(last: seq<Json>, config: seq<Json>, skipped: nat, sent: seq<Json>)
    requires last <= config && skipped <= |last|
    ensures sent + Strip(last[skipped..]) + Strip(config[|last|..]) == sent + Strip(config[skipped..])
  {
    hide Strip;
    var a, b := last[skipped..], config[|last|..];
    assert config[skipped..] == a + b;
    StripConcat(a, b);
    assert (sent + Strip(a)) + Strip(b) == sent + (Strip(a) + Strip(b));
  }

  /** Over any run of deploys of growing lists, what is sent is the inferred step, if there is
      one, and then each step once and in order, except those that the inferred tag hides. */
  lemma {:induction false} EveryStepOnce(bundles: seq<Bundle>)
    requires Extending(bundles)
    ensures LeftBy(DeployAll(bundles), bundles)
  {
    hide Deploy, LeftBy;
    if bundles == [] {
      NothingLeft();
    } else {
      var before := bundles[..|bundles| - 1];
      ExtendingPrefix(bundles);
      EveryStepOnce(before);
      LastDeployLeaves(before, DeployAll(before), bundles);
    }
  }

  lemma NothingLeft()
    ensures LeftBy(FRESH, [])
  {
  }

  /** So every step of the last list is sent exactly when no migration was inferred, or the
      first explicit list does not use the inferred tag. */
  lemma AllSentExactlyWithoutAutoTag(bundles: seq<Bundle>)
    requires Extending(bundles)
    ensures DeployAll(bundles).applied == InferredSteps(bundles) + Strip(LastConfig(bundles)) <==>
              !(InferredFires(bundles) &&
                exists i :: 0 <= i < |FirstConfig(bundles)| && MigrationTag(FirstConfig(bundles)[i]) == Some(AUTO_TAG))
  {
    hide Deploy, DeployAll, Strip;
    var config, n := LastConfig(bundles), Skipped(bundles);
    EveryStepOnce(bundles);
    FindTagIsFirst(FirstConfig(bundles), AUTO_TAG);
    if n == 0 {
      assert config[0..] == config;
    } else {
      assert MigrationTag(FirstConfig(bundles)[n - 1]) == Some(AUTO_TAG);
      LastIsDistinct(bundles);
      StripLength(config);
      StripLength(config[n..]);
      var inferred := InferredSteps(bundles);
      assert |Strip(config[n..])| < |Strip(config)|;
      assert inferred + Strip(config[n..]) != inferred + Strip(config);
      assert DeployAll(bundles).applied == inferred + Strip(config[n..]);
    }
  }

  lemma LastIsDistinct(bundles: seq<Bundle>)
    requires Extending(bundles)
    ensures DistinctTags(LastConfig(bundles))
  {
  }

  /** A script first deployed without a list and then with one whose second step is tagged
      `auto-v1` is never sent that list's first two steps. */
  lemma AutoTagHidesSteps(a: Json, auto: Json, b: Json, class_: string)
    requires MigrationTag(auto) == Some("auto-v1") && DistinctTags([a, auto, b])
    ensures DeployAll([Bundle([], [class_]), Bundle([a, auto, b], [class_])]).applied
         == [InferredStep([class_]), StepWithoutTag(b).value]
  {
    hide Deploy, DeployAll;
    var first, second := Bundle([], [class_]), Bundle([a, auto, b], [class_]);
    var bundles, config := [first, second], [a, auto, b];
    assert bundles[..1] == [first] && [first][..0] == [];
    assert FirstConfig([first]) == [];
    assert bundles[..|bundles| - 1] == [first] && FirstConfig(bundles) == config;
    EveryStepOnce(bundles);
    FindTagIsFirst(config, AUTO_TAG);
    assert MigrationTag(config[1]) == Some(AUTO_TAG) && MigrationTag(config[0]) != MigrationTag(config[1]);
    assert FindTag(config, AUTO_TAG) == Some(1);
    assert config[2..] == [b] && Strip([b]) == [StepWithoutTag(b).value];
  }

  /** Deploying a list again that is already applied sends nothing, exactly when its last tag
      does not occur earlier in it. */
  lemma RedeploySendsNothing(config: seq<Json>)
    requires config != [] && MigrationTag(config[|config| - 1]).Some?
    ensures var last := MigrationTag(config[|config| - 1]);
      BuildMigrationsPayload(config, last).None? <==>
          forall i :: 0 <= i < |config| - 1 ==> MigrationTag(config[i]) != last
  {
    hide Strip;
    var n, last := |config| - 1, MigrationTag(config[|config| - 1]);
    FindTagIsFirst(config, last.value);
    var index := FindTag(config, last.value).value;
    StripKeepsLast(config);
    if index < n {
      assert config[index + 1..][|config[index + 1..]| - 1] == config[n];
      StripKeepsLast(config[index + 1..]);
    }
  }

  /** A list whose last step has a tag has something to send. */
  lemma StripKeepsLast(steps: seq<Json>)
    requires steps != [] && MigrationTag(steps[|steps| - 1]).Some?
    ensures Strip(steps) != []
  {
    var n := |steps| - 1;
    assert steps == steps[..n] + [steps[n]];
    StripConcat(steps[..n], [steps[n]]);
    StripOne(steps[n]);
  }

  lemma StripOne(step: Json)
    requires MigrationTag(step).Some?
    ensures Strip([step]) == [StepWithoutTag(step).value]
  {
  }

  /** A repeated tag makes a redeploy of the same list send a step a second time. */
  lemma RepeatedTagIsSentTwice(step: Json)
    requires MigrationTag(step).Some?
    ensures var bundle := Bundle([step, step], []);
      |DeployAll([bundle]).applied| == 2 && |DeployAll([bundle, bundle]).applied| == 3
  {
    var bundle := Bundle([step, step], []);
    assert [step, step][1..] == [step] && [step][1..] == [];
    assert Strip([step]) == [StepWithoutTag(step).value];
    assert [bundle, bundle][..1] == [bundle] && [bundle][..0] == [];
    assert DeployAll([bundle]) == Deploy(FRESH, bundle);
  }

  // --------------------------------------------------------- what a sent step holds

  /** The step as it was written, without its tag. */
  ghost predicate SameButTag(sent: Json, step: Json) {
    sent.JObject? && forall key :: Get(sent, key) == if key == "tag" then None else Get(step, key)
  }

  /** The k-th step sent is the k-th step of the list without its tag. */
  ghost predicate SentAs(sent: seq<Json>, steps: seq<Json>) {
    |sent| == |steps| && forall k :: 0 <= k < |steps| ==> SameButTag(sent[k], steps[k])
  }

  lemma StrippedStep(step: Json)
    ensures StepWithoutTag(step).Some? <==> step.JObject?
    ensures step.JObject? ==> SameButTag(StepWithoutTag(step).value, step)
  {
  }

  lemma {:induction false} StripSends(steps: seq<Json>)
    requires forall k :: 0 <= k < |steps| ==> steps[k].JObject?
    ensures SentAs(Strip(steps), steps)
  {
    hide StepWithoutTag, SameButTag;
    if steps != [] {
      StrippedStep(steps[0]);
      StripSends(steps[1..]);
      forall k | 0 < k < |steps| ensures SameButTag(Strip(steps)[k], steps[k]) {
        assert SameButTag(Strip(steps[1..])[k - 1], steps[1..][k - 1]);
      }
    }
  }

  /** Entries that are not objects are left out. */
  lemma {:induction false} StripSkipsOthers(a: seq<Json>, step: Json, b: seq<Json>)
    requires !step.JObject?
    ensures Strip(a + [step] + b) == Strip(a + b)
  {
    StripConcat(a + [step], b);
    StripConcat(a, [step]);
    StripConcat(a, b);
    assert Strip([step]) == [];
  }

  lemma TaggedAreObjects(config: seq<Json>)
    requires DistinctTags(config)
    ensures forall k :: 0 <= k < |config| ==> config[k].JObject?
  {
    forall k | 0 <= k < |config| ensures config[k].JObject? {
      assert MigrationTag(config[k]).Some?;
    }
  }

  /** From the tag a prefix leaves, the outstanding steps are sent, each with exactly its own
      fields apart from the tag. */
  lemma PayloadCarriesTheRest(config: seq<Json>, done: nat)
    requires DistinctTags(config) && done < |config|
    ensures var current := if done == 0 then None else GetString(config[done - 1], "tag");
      var p := BuildMigrationsPayload(config, current);
      && p.Some? && SentAs(p.value.steps, config[done..]) && p.value.oldTag == current
      && Some(p.value.newTag) == GetString(config[|config| - 1], "tag")
  {
    hide Strip, BuildMigrationsPayload;
    PayloadSendsTheRest(config, done);
    TaggedAreObjects(config);
    StripSends(config[done..]);
  }

  /** Over any run of deploys of lists that extend one another: first the inferred step, if any,
      which names each class once and in ascending order, and then, unless the inferred tag hides
      it, each step of the last list with exactly its own fields apart from the tag. */
  lemma EveryStepArrives(bundles: seq<Bundle>)
    requires Extending(bundles)
    ensures var applied, config := DeployAll(bundles).applied, LastConfig(bundles);
      var first := if InferredFires(bundles) then 1 else 0;
      && first <= |applied| && Skipped(bundles) <= |config|
      && (InferredFires(bundles) ==> CreatesClasses(applied[0], bundles[0].classes))
      && SentAs(applied[first..], config[Skipped(bundles)..])
  {
    hide Strip, Deploy, DeployAll, CreatesClasses, InferredStep;
    var applied, config, n := DeployAll(bundles).applied, LastConfig(bundles), Skipped(bundles);
    EveryStepOnce(bundles);
    LastIsDistinct(bundles);
    TaggedAreObjects(config);
    StripSends(config[n..]);
    if InferredFires(bundles) {
      InferredCreates(bundles[0].classes);
      assert applied[1..] == Strip(config[n..]);
    } else {
      assert applied[0..] == applied;
      assert applied == [] + Strip(config[n..]);
    }
  }

  /** The step creates each of the classes once, in ascending order, and does nothing else. */
  ghost predicate CreatesClasses(step: Json, classes: seq<string>) {
    && step.JObject? && step.fields.Keys == {"new_sqlite_classes"}
    && step.fields["new_sqlite_classes"].JArray?
    && var items := step.fields["new_sqlite_classes"].items;
      && (forall c :: JString(c) in items <==> c in classes)
      && (forall i :: 0 <= i < |items| ==> items[i].JString?)
      && (forall i, j :: 0 <= i < j < |items| ==>
            items[i].JString? && items[j].JString? && Less(items[i].s, items[j].s))
  }

  lemma {:induction false} LessIsTransitive(a: string, b: string, c: string)
    requires Less(a, b) && Less(b, c)
    ensures Less(a, c)
  {
    if a != "" && a[0] == b[0] && b[0] == c[0] {
      LessIsTransitive(a[1..], b[1..], c[1..]);
    }
  }

  lemma {:induction false} LessIsTotal(a: string, b: string)
    ensures a == b || Less(a, b) || Less(b, a)
  {
    if a != "" && b != "" && a[0] == b[0] {
      LessIsTotal(a[1..], b[1..]);
      if a[1..] == b[1..] {
        assert a == [a[0]] + a[1..] && b == [b[0]] + b[1..];
      }
    }
  }

  predicate Ascending(names: seq<string>) {
    forall i, j :: 0 <= i < j < |names| ==> Less(names[i], names[j])
  }

  lemma {:induction false} InsertKeepsAscending(x: string, names: seq<string>)
    requires Ascending(names)
    ensures var r := InsertName(x, names);
      Ascending(r) && forall n :: n in r <==> n == x || n in names
  {
    hide Less;
    if names != [] && x != names[0] {
      LessIsTotal(x, names[0]);
      if Less(x, names[0]) {
        forall j | 0 <= j < |names| ensures Less(x, names[j]) {
          if j > 0 { LessIsTransitive(x, names[0], names[j]); }
        }
      } else {
        var rest := InsertName(x, names[1..]);
        InsertKeepsAscending(x, names[1..]);
        forall j | 0 <= j < |rest| ensures Less(names[0], rest[j]) {
          if rest[j] != x {
            assert rest[j] in names[1..];
            var k :| 0 <= k < |names[1..]| && names[1..][k] == rest[j];
            assert Less(names[0], names[k + 1]);
          }
        }
      }
    }
  }

  lemma {:induction false} SortedNamesAre(names: seq<string>)
    ensures Ascending(SortedNames(names)) && forall n :: n in SortedNames(names) <==> n in names
  {
    hide InsertName;
    if names != [] {
      SortedNamesAre(names[1..]);
      InsertKeepsAscending(names[0], SortedNames(names[1..]));
    }
  }

  lemma InferredCreates(classes: seq<string>)
    ensures CreatesClasses(InferredStep(classes), classes)
  {
    hide SortedNames, Less;
    var names, items := SortedNames(classes), InferredStep(classes).fields["new_sqlite_classes"].items;
    SortedNamesAre(classes);
    forall c ensures JString(c) in items <==> c in classes {
      if c in names {
        var i :| 0 <= i < |names| && names[i] == c;
        assert items[i] == JString(c);
      }
    }
  }

  /** A list whose last step has no tag, or that has no step at all, migrates nothing. */
  lemma NoTagNoMigration(config: seq<Json>, current: Option<string>)
    requires config == [] || GetString(config[|config| - 1], "tag").None?
    ensures BuildMigrationsPayload(config, current).None?
  {
  }
}
