/**
 Reconciling the adapter bindings of a gateway that is already deployed
 (`gateway_adapter_binding_patch`, cli/src/deploy.rs). The binding list is
 replaced as a whole; an "inherit" entry keeps the live binding of that name.
 */
module GatewayPatch {
  import opened Common
  import opened Json
  import opened Naming

  function SelectedAdapters(components: seq<string>): seq<Adapter> {
    if components == [] then []
    else
      var rest := SelectedAdapters(components[1..]);
      var a := AdapterOf(components[0]);
      if a.Some? then [a.value] + rest else rest
  }

  function ServiceJson(name: string, service: string, entrypoint: string): Json {
    JObject(map["name" := JString(name), "type" := JString("service"),
        "service" := JString(service), "entrypoint" := JString(entrypoint)])
  }

  function InheritJson(name: string): Json {
    JObject(map["name" := JString(name), "type" := JString("inherit")])
  }

  function DesiredJson(a: Adapter, instance: string): Json {
    ServiceJson(a.gatewayBinding, OrElse(ScriptName(instance, a.component), ""), a.entrypoint)
  }

  /** The wanted bindings by name. */
  function Desired(adapters: seq<Adapter>, instance: string): map<string, Json> {
    if adapters == [] then map[]
    else
      var n := |adapters| - 1;
      Desired(adapters[..n], instance)[adapters[n].gatewayBinding := DesiredJson(adapters[n], instance)]
  }

  /** The order in which a sorted map yields the adapter bindings. */
  const SORTED_BINDINGS: seq<string> := ["CHANNEL_DISCORD", "CHANNEL_TELEGRAM", "CHANNEL_WHATSAPP"]

  function ValuesInOrder(m: map<string, Json>, keys: seq<string>): seq<Json> {
    if keys == [] then []
    else (if keys[0] in m then [m[keys[0]]] else []) + ValuesInOrder(m, keys[1..])
  }

  /** A binding's name, when it has one that is not blank. */
  function NameOf(binding: Json): Option<string> {
    var name := GetString(binding, "name");
    if name.Some? && Trim(name.value) != "" then name else None
  }

  predicate Matches(binding: Json, desired: Json) {
    && Get(binding, "type") == Get(desired, "type")
    && Get(binding, "service") == Get(desired, "service")
    && Get(binding, "entrypoint") == Get(desired, "entrypoint")
    && (Get(binding, "environment").None? || Get(binding, "environment").value.JNull?)
  }

  predicate HasName(binding: Json, name: string) {
    Get(binding, "name") == Some(JString(name))
  }

  /** A service binding to the worker through the entrypoint, in the default environment. */
  predicate IsLink(binding: Json, service: string, entrypoint: string) {
    && Get(binding, "type") == Some(JString("service"))
    && Get(binding, "service") == Some(JString(service))
    && Get(binding, "entrypoint") == Some(JString(entrypoint))
    && (Get(binding, "environment").None? || Get(binding, "environment") == Some(JNull))
  }

  /** Names are the non-blank strings. */
  lemma NameOfExactly(binding: Json, name: string)
    ensures NameOf(binding) == Some(name) <==> HasName(binding, name) && !AllWhitespace(name)
  {
    var a, b := TrimSplits(name);
    if AllWhitespace(name) {
      TrimOf(name, "", "");
      assert name + "" + "" == name;
    }
  }

  lemma MatchesExactly(binding: Json, a: Adapter, instance: string)
    ensures Matches(binding, DesiredJson(a, instance))
        <==> IsLink(binding, OrElse(ScriptName(instance, a.component), ""), a.entrypoint)
  {
  }

  datatype PatchError = NoBindings | Unnamed(index: nat) | Duplicate(name: string)

  function Names(bs: seq<Json>): set<string> {
    if bs == [] then {}
    else
      var n := |bs| - 1;
      Names(bs[..n]) + if NameOf(bs[n]).Some? then {NameOf(bs[n]).value} else {}
  }

  lemma {:induction false} NamesAreThoseOfBindings(bs: seq<Json>, name: string)
    ensures name in Names(bs) <==> exists k :: 0 <= k < |bs| && NameOf(bs[k]) == Some(name)
  {
    if bs != [] {
      var n := |bs| - 1;
      NamesAreThoseOfBindings(bs[..n], name);
      if name in Names(bs[..n]) {
        var k :| 0 <= k < |bs[..n]| && NameOf(bs[..n][k]) == Some(name);
        assert NameOf(bs[k]) == Some(name);
      }
      if exists k :: 0 <= k < n && NameOf(bs[k]) == Some(name) {
        var k :| 0 <= k < n && NameOf(bs[k]) == Some(name);
        assert NameOf(bs[..n][k]) == Some(name);
      }
    }
  }

  /** The first binding that makes the list unusable. */
  function FirstFault(bs: seq<Json>): Option<PatchError> {
    if bs == [] then None
    else
      var n := |bs| - 1;
      match FirstFault(bs[..n])
      case Some(e) => Some(e)
      case None =>
        if NameOf(bs[n]).None? then Some(Unnamed(n))
        else if NameOf(bs[n]).value in Names(bs[..n]) then Some(Duplicate(NameOf(bs[n]).value))
        else None
  }

  function PatchEntry(binding: Json, desired: map<string, Json>): Json
    requires NameOf(binding).Some?
  {
    var name := NameOf(binding).value;
    if name in desired && !Matches(binding, desired[name]) then desired[name] else InheritJson(name)
  }

  predicate Named(bs: seq<Json>) {
    forall k :: 0 <= k < |bs| ==> NameOf(bs[k]).Some?
  }

  function PatchEntries(bs: seq<Json>, desired: map<string, Json>): (r: seq<Json>)
    requires Named(bs)
    ensures |r| == |bs|
    ensures forall k :: 0 <= k < |bs| ==> r[k] == PatchEntry(bs[k], desired)
  {
    if bs == [] then []
    else
      var n := |bs| - 1;
      PatchEntries(bs[..n], desired) + [PatchEntry(bs[n], desired)]
  }

  predicate Outdated(binding: Json, desired: map<string, Json>) {
    NameOf(binding).Some? && NameOf(binding).value in desired && !Matches(binding, desired[NameOf(binding).value])
  }

  lemma {:induction false} FaultlessIsNamed(bs: seq<Json>)
    requires FirstFault(bs) == None
    ensures Named(bs)
    ensures forall i, j :: 0 <= i < j < |bs| ==> NameOf(bs[i]) != NameOf(bs[j])
  {
    hide NameOf;
    if bs != [] {
      var n := |bs| - 1;
      FaultlessIsNamed(bs[..n]);
      forall k | 0 <= k < n ensures NameOf(bs[k]).Some? && NameOf(bs[k]) != NameOf(bs[n]) {
        assert bs[..n][k] == bs[k];
        NamesAreThoseOfBindings(bs[..n], NameOf(bs[k]).value);
      }
    }
  }

  /** The patch, stated without the loop's bookkeeping: entry by entry, then what is missing. */
  function BindingPatch(settings: Json, components: seq<string>, instance: string):
      Result<Option<seq<Json>>, PatchError> {
    var desired := Desired(SelectedAdapters(components), instance);
    if desired == map[] then Ok(None)
    else
      match Get(settings, "bindings")
      case Some(JArray(existing)) =>
        (match FirstFault(existing)
         case Some(e) => Err(e)
         case None =>
           FaultlessIsNamed(existing);
           var missing := desired - Names(existing);
           if missing == map[] && forall k :: 0 <= k < |existing| ==> !Outdated(existing[k], desired) then Ok(None)
           else Ok(Some(PatchEntries(existing, desired) + ValuesInOrder(missing, SORTED_BINDINGS))))
      case _ => Err(NoBindings)
  }

  /** What the next binding adds to everything the loop has accumulated. */
  lemma NextBinding(bs: seq<Json>, i: nat, wanted: map<string, Json>)
    requires i < |bs| && FirstFault(bs[..i]) == None && Named(bs[..i])
    ensures var name := NameOf(bs[i]);
      if name.None? then FirstFault(bs) == Some(Unnamed(i))
      else if name.value in Names(bs[..i]) then FirstFault(bs) == Some(Duplicate(name.value))
      else FirstFault(bs[..i + 1]) == None && Named(bs[..i + 1]) &&
           Names(bs[..i + 1]) == Names(bs[..i]) + {name.value} &&
           PatchEntries(bs[..i + 1], wanted) == PatchEntries(bs[..i], wanted) + [PatchEntry(bs[i], wanted)]
  {
    hide NameOf, Matches;
    assert bs[..i + 1][..i] == bs[..i];
    if FirstFault(bs[..i + 1]).Some? {
      FaultPersists(bs, i + 1);
    }
  }

  lemma NothingPatched(bs: seq<Json>, wanted: map<string, Json>)
    ensures FirstFault(bs[..0]) == None && Names(bs[..0]) == {} && PatchEntries(bs[..0], wanted) == []
  {
  }

  /** One round over the live bindings, taking wanted ones out of the map as it meets them. */
  method PatchExisting(existing: seq<Json>, wanted: map<string, Json>)
      returns (fault: Option<PatchError>, patch: seq<Json>, missing: map<string, Json>, changed: bool)
    ensures fault == FirstFault(existing)
    ensures fault.None? ==> Named(existing) && patch == PatchEntries(existing, wanted)
    ensures fault.None? ==> missing == wanted - Names(existing)
    ensures fault.None? ==> (changed <==> exists k :: 0 <= k < |existing| && Outdated(existing[k], wanted))
  {
    hide NameOf, Matches, InheritJson, FirstFault, Names, PatchEntries;
    NothingPatched(existing, wanted);
    patch, missing, changed := [], wanted, false;
    var seen: set<string> := {};
    for i := 0 to |existing|
      invariant FirstFault(existing[..i]) == None && Named(existing[..i])
      invariant seen == Names(existing[..i])
      invariant missing == wanted - seen
      invariant patch == PatchEntries(existing[..i], wanted)
      invariant changed <==> exists k :: 0 <= k < i && Outdated(existing[k], wanted)
    {
      NextBinding(existing, i, wanted);
      if NameOf(existing[i]).None? {
        return Some(Unnamed(i)), patch, missing, changed;
      }
      var name := NameOf(existing[i]).value;
      if name in seen {
        return Some(Duplicate(name)), patch, missing, changed;
      }
      seen := seen + {name};
      if name in missing {
        var d := missing[name];
        missing := missing - {name};
        if Matches(existing[i], d) {
          patch := patch + [InheritJson(name)];
        } else {
          patch := patch + [d];
          changed := true;
        }
      } else {
        patch := patch + [InheritJson(name)];
      }
    }
    assert existing[..|existing|] == existing;
    fault := None;
  }

  method GatewayAdapterBindingPatch(settings: Json, components: seq<string>, instance: string)
      returns (r: Result<Option<seq<Json>>, PatchError>)
    ensures r == BindingPatch(settings, components, instance)
  {
    var selected := SelectedAdapters(components);
    var desired: map<string, Json> := map[];
    for i := 0 to |selected|
      invariant desired == Desired(selected[..i], instance)
    {
      assert selected[..i + 1][..i] == selected[..i];
      desired := desired[selected[i].gatewayBinding := DesiredJson(selected[i], instance)];
    }
    assert selected[..|selected|] == selected;
    if desired == map[] {
      return Ok(None);
    }
    var found := Get(settings, "bindings");
    if found.None? || !found.value.JArray? {
      return Err(NoBindings);
    }
    var fault, patch, missing, changed := PatchExisting(found.value.items, desired);
    if fault.Some? {
      return Err(fault.value);
    }
    if missing != map[] {
      changed := true;
      patch := patch + ValuesInOrder(missing, SORTED_BINDINGS);
    } else {
      NoValues(SORTED_BINDINGS);
      assert patch + [] == patch;
    }
    return Ok(if changed then Some(patch) else None);
  }

  lemma {:induction false} FaultPersists(bs: seq<Json>, n: nat)
    requires n <= |bs| && FirstFault(bs[..n]).Some?
    ensures FirstFault(bs) == FirstFault(bs[..n])
    decreases |bs|
  {
    if n < |bs| {
      var m := |bs| - 1;
      assert bs[..m][..n] == bs[..n];
      FaultPersists(bs[..m], n);
    } else {
      assert bs[..n] == bs;
    }
  }

  lemma {:induction false} NoValues(keys: seq<string>)
    ensures ValuesInOrder(map[], keys) == []
  {
    if keys != [] {
      NoValues(keys[1..]);
    }
  }

  // ------------------------------------------------------- version annotations

  const WRITABLE_ANNOTATIONS: seq<string> := ["workers/message", "workers/tag"]

  function FieldOf(fields: map<string, Json>, name: string): Json {
    if name in fields then fields[name] else JNull
  }

  /** The annotations among `names` that are set, unless one of them is not a string. */
  function StringFields(fields: map<string, Json>, names: seq<string>): Result<map<string, Json>, string> {
    if names == [] then Ok(map[])
    else
      var n := |names| - 1;
      match StringFields(fields, names[..n])
      case Err(e) => Err(e)
      case Ok(rest) =>
        match FieldOf(fields, names[n])
        case JNull => Ok(rest)
        case JString(_) => Ok(rest[names[n] := fields[names[n]]])
        case _ => Err(names[n])
  }

  /** The annotations a patch sends along; the error names the one that is malformed. */
  function WritableAnnotations(settings: Json): Result<Option<Json>, string> {
    match Get(settings, "annotations")
    case None => Ok(None)
    case Some(JNull) => Ok(None)
    case Some(JObject(fields)) =>
      (match StringFields(fields, WRITABLE_ANNOTATIONS)
       case Err(e) => Err(e)
       case Ok(m) => Ok(if m == map[] then None else Some(JObject(m))))
    case _ => Err("annotations")
  }

  method WritableVersionAnnotations(settings: Json) returns (r: Result<Option<Json>, string>)
    ensures r == WritableAnnotations(settings)
  {
    var found := Get(settings, "annotations");
    if found.None? || found.value.JNull? {
      return Ok(None);
    }
    if !found.value.JObject? {
      return Err("annotations");
    }
    var fields, names := found.value.fields, WRITABLE_ANNOTATIONS;
    var writable: map<string, Json> := map[];
    for i := 0 to |names|
      invariant StringFields(fields, names[..i]) == Ok(writable)
    {
      assert names[..i + 1][..i] == names[..i];
      if names[i] in fields && !fields[names[i]].JNull? {
        if !fields[names[i]].JString? {
          StringFieldsFail(fields, names, i + 1);
          return Err(names[i]);
        }
        writable := writable[names[i] := fields[names[i]]];
      }
    }
    assert names[..|names|] == names;
    return Ok(if writable == map[] then None else Some(JObject(writable)));
  }

  lemma {:induction false} StringFieldsFail(fields: map<string, Json>, names: seq<string>, n: nat)
    requires n <= |names| && StringFields(fields, names[..n]).Err?
    ensures StringFields(fields, names) == StringFields(fields, names[..n])
    decreases |names|
  {
    if n < |names| {
      assert names[..|names| - 1][..n] == names[..n];
      StringFieldsFail(fields, names[..|names| - 1], n);
    } else {
      assert names[..n] == names;
    }
  }

  lemma {:induction false} StringFieldsAre(fields: map<string, Json>, names: seq<string>)
    ensures StringFields(fields, names).Ok? <==>
              forall name :: name in names ==> FieldOf(fields, name).JNull? || FieldOf(fields, name).JString?
    ensures StringFields(fields, names).Ok? ==> var m := StringFields(fields, names).value;
      && (forall name :: name in m <==> name in names && FieldOf(fields, name).JString?)
      && (forall name :: name in m ==> m[name] == fields[name])
  {
    if names != [] {
      var n := |names| - 1;
      StringFieldsAre(fields, names[..n]);
      assert forall name :: name in names <==> name in names[..n] || name == names[n];
    }
  }

  /** No annotations, or an object in which the writable ones are strings, null or missing. */
  predicate AnnotationsWellFormed(settings: Json) {
    var a := Get(settings, "annotations");
    a.None? || a.value.JNull? ||
    (a.value.JObject? &&
     forall name :: name in {"workers/message", "workers/tag"} ==>
       FieldOf(a.value.fields, name).JNull? || FieldOf(a.value.fields, name).JString?)
  }

  /** Collecting fails exactly on malformed annotations; otherwise exactly the writable ones
      that are set are sent along, unchanged. */
  lemma AnnotationsAreCopied(settings: Json)
    ensures WritableAnnotations(settings).Ok? <==> AnnotationsWellFormed(settings)
    ensures WritableAnnotations(settings).Ok? ==>
              var sent, found := WritableAnnotations(settings).value, Get(settings, "annotations");
              && (sent.Some? ==> sent.value.JObject?)
              && forall name :: (if sent.Some? then Get(sent.value, name) else None) ==
                   if found.Some? && name in {"workers/message", "workers/tag"} && GetString(found.value, name).Some?
                   then Get(found.value, name) else None
  {
    assert forall name :: name in WRITABLE_ANNOTATIONS <==> name in {"workers/message", "workers/tag"} by {
      assert WRITABLE_ANNOTATIONS[0] == "workers/message" && WRITABLE_ANNOTATIONS[1] == "workers/tag";
    }
    var found := Get(settings, "annotations");
    if found.Some? && found.value.JObject? {
      StringFieldsAre(found.value.fields, WRITABLE_ANNOTATIONS);
    }
  }

  // ------------------------------------------------- what the patch achieves

  function FindByName(bs: seq<Json>, name: Option<string>): Option<Json> {
    if bs == [] then None
    else if NameOf(bs[0]) == name then Some(bs[0])
    else FindByName(bs[1..], name)
  }

  /** The binding an entry of the patch stands for, given the live bindings. */
  function Meant(live: seq<Json>, entry: Json): Json {
    if GetString(entry, "type") == Some("inherit") then
      match FindByName(live, NameOf(entry))
      case Some(b) => b
      case None => entry
    else entry
  }

  /** The live binding list after the patch. */
  function Applied(live: seq<Json>, patch: seq<Json>): (r: seq<Json>)
    ensures |r| == |patch|
    ensures forall k :: 0 <= k < |patch| ==> r[k] == Meant(live, patch[k])
  {
    if patch == [] then []
    else
      var n := |patch| - 1;
      Applied(live, patch[..n]) + [Meant(live, patch[n])]
  }

  /** The gateway has a binding of the adapter's name to the adapter's worker and entrypoint. */
  ghost predicate Binds(bs: seq<Json>, a: Adapter, instance: string) {
    exists k :: 0 <= k < |bs| && HasName(bs[k], a.gatewayBinding) &&
                IsLink(bs[k], OrElse(ScriptName(instance, a.component), ""), a.entrypoint)
  }

  /** Exactly one binding has the name, and it links to the worker through the entrypoint. */
  ghost predicate Resolves(bs: seq<Json>, name: string, service: string, entrypoint: string) {
    exists k :: 0 <= k < |bs| && OnlyNamed(bs, name, k) && IsLink(bs[k], service, entrypoint)
  }

  predicate OnlyNamed(bs: seq<Json>, name: string, k: nat)
    requires k < |bs|
  {
    HasName(bs[k], name) && forall j :: 0 <= j < |bs| && HasName(bs[j], name) ==> j == k
  }

  predicate DistinctNames(bs: seq<Json>) {
    Named(bs) && forall i, j :: 0 <= i < j < |bs| ==> NameOf(bs[i]) != NameOf(bs[j])
  }

  lemma {:induction false} DistinctIsFaultless(bs: seq<Json>)
    requires DistinctNames(bs)
    ensures FirstFault(bs) == None
  {
    hide NameOf;
    if bs != [] {
      var n := |bs| - 1;
      DistinctIsFaultless(bs[..n]);
      NamesAreThoseOfBindings(bs[..n], NameOf(bs[n]).value);
    }
  }

  lemma AdapterNames(a: Adapter, instance: string)
    requires a in ADAPTERS
    ensures NameOf(DesiredJson(a, instance)) == Some(a.gatewayBinding)
    ensures GetString(DesiredJson(a, instance), "type") == Some("service")
    ensures Matches(DesiredJson(a, instance), DesiredJson(a, instance))
    ensures a.gatewayBinding in SORTED_BINDINGS
  {
    TrimNothing(a.gatewayBinding);
    assert SORTED_BINDINGS[0] == ADAPTERS[1].gatewayBinding;
    assert SORTED_BINDINGS[1] == ADAPTERS[2].gatewayBinding;
    assert SORTED_BINDINGS[2] == ADAPTERS[0].gatewayBinding;
  }

  lemma AdapterNamesDiffer(a: Adapter, b: Adapter)
    requires a in ADAPTERS && b in ADAPTERS && a.gatewayBinding == b.gatewayBinding
    ensures a == b
  {
    assert ADAPTERS[0].gatewayBinding[8] == 'W' && ADAPTERS[1].gatewayBinding[8] == 'D' &&
        ADAPTERS[2].gatewayBinding[8] == 'T';
  }

  lemma {:induction false} SelectedAreAdapters(components: seq<string>)
    ensures forall a :: a in SelectedAdapters(components) ==> a in ADAPTERS
    ensures forall c :: c in components && AdapterOf(c).Some? ==> AdapterOf(c).value in SelectedAdapters(components)
  {
    if components != [] {
      SelectedAreAdapters(components[1..]);
      assert forall c :: c in components ==> c == components[0] || c in components[1..];
    }
  }

  /** What every map of wanted bindings looks like. */
  ghost predicate Wanted(desired: map<string, Json>) {
    forall name :: name in desired ==> IsWanted(name, desired[name])
  }

  predicate IsWanted(name: string, b: Json) {
    && name in SORTED_BINDINGS
    && NameOf(b) == Some(name)
    && GetString(b, "type") == Some("service")
    && Matches(b, b)
  }

  lemma {:induction false} DesiredIsWanted(adapters: seq<Adapter>, instance: string)
    requires forall a :: a in adapters ==> a in ADAPTERS
    ensures Wanted(Desired(adapters, instance))
  {
    hide NameOf, Matches, DesiredJson, GetString;
    if adapters != [] {
      var n := |adapters| - 1;
      DesiredIsWanted(adapters[..n], instance);
      AdapterNames(adapters[n], instance);
    }
  }

  /** The wanted bindings are those of the selected adapters. */
  lemma {:induction false} DesiredOfAdapter(adapters: seq<Adapter>, instance: string, a: Adapter)
    requires forall b :: b in adapters ==> b in ADAPTERS
    requires a in adapters
    ensures a.gatewayBinding in Desired(adapters, instance)
    ensures Desired(adapters, instance)[a.gatewayBinding] == DesiredJson(a, instance)
  {
    hide DesiredJson;
    var n := |adapters| - 1;
    if adapters[n].gatewayBinding == a.gatewayBinding {
      AdapterNamesDiffer(a, adapters[n]);
    } else {
      assert a in adapters[..n];
      DesiredOfAdapter(adapters[..n], instance, a);
    }
  }

  lemma {:induction false} AddedAreFromMap(m: map<string, Json>, keys: seq<string>, k: nat)
    requires forall name :: name in m ==> NameOf(m[name]) == Some(name)
    requires k < |ValuesInOrder(m, keys)|
    ensures var b := ValuesInOrder(m, keys)[k];
      exists name :: name in m && name in keys && NameOf(b) == Some(name) && b == m[name]
  {
    hide NameOf;
    var here := if keys[0] in m then 1 else 0;
    if k >= here {
      AddedAreFromMap(m, keys[1..], k - here);
    }
  }

  lemma {:induction false} AddedHasAll(m: map<string, Json>, keys: seq<string>, name: string)
    requires name in m && name in keys
    ensures exists k :: 0 <= k < |ValuesInOrder(m, keys)| && ValuesInOrder(m, keys)[k] == m[name]
  {
    if name == keys[0] {
      assert ValuesInOrder(m, keys)[0] == m[name];
    } else {
      AddedHasAll(m, keys[1..], name);
      var k :| 0 <= k < |ValuesInOrder(m, keys[1..])| && ValuesInOrder(m, keys[1..])[k] == m[name];
      assert ValuesInOrder(m, keys)[k + if keys[0] in m then 1 else 0] == m[name];
    }
  }

  lemma {:induction false} AddedAreDistinct(m: map<string, Json>, keys: seq<string>)
    requires forall name :: name in m ==> NameOf(m[name]) == Some(name)
    requires forall i, j :: 0 <= i < j < |keys| ==> keys[i] != keys[j]
    ensures DistinctNames(ValuesInOrder(m, keys))
  {
    hide NameOf;
    if keys != [] {
      var rest := ValuesInOrder(m, keys[1..]);
      AddedAreDistinct(m, keys[1..]);
      forall k | 0 <= k < |rest| ensures NameOf(rest[k]) != Some(keys[0]) {
        AddedAreFromMap(m, keys[1..], k);
      }
    }
  }

  /** What is added at the end: one binding for each missing name. */
  lemma AddedBindings(m: map<string, Json>, keys: seq<string>)
    requires forall name :: name in m ==> NameOf(m[name]) == Some(name)
    requires forall i, j :: 0 <= i < j < |keys| ==> keys[i] != keys[j]
    ensures var r := ValuesInOrder(m, keys);
      && DistinctNames(r)
      && (forall k :: 0 <= k < |r| ==>
            NameOf(r[k]).value in m && NameOf(r[k]).value in keys && r[k] == m[NameOf(r[k]).value])
      && (forall name :: name in m && name in keys ==> exists k :: 0 <= k < |r| && r[k] == m[name])
  {
    hide NameOf, ValuesInOrder;
    var r := ValuesInOrder(m, keys);
    AddedAreDistinct(m, keys);
    forall k | 0 <= k < |r|
      ensures NameOf(r[k]).value in m && NameOf(r[k]).value in keys && r[k] == m[NameOf(r[k]).value]
    {
      AddedAreFromMap(m, keys, k);
    }
    forall name | name in m && name in keys ensures exists k :: 0 <= k < |r| && r[k] == m[name] {
      AddedHasAll(m, keys, name);
    }
  }

  lemma {:induction false} FindsItself(bs: seq<Json>, i: nat)
    requires DistinctNames(bs) && i < |bs|
    ensures FindByName(bs, NameOf(bs[i])) == Some(bs[i])
  {
    hide NameOf;
    if i > 0 {
      assert bs[1..][i - 1] == bs[i];
      FindsItself(bs[1..], i - 1);
    }
  }

  lemma InheritMeansItself(live: seq<Json>, i: nat)
    requires DistinctNames(live) && i < |live|
    ensures Meant(live, InheritJson(NameOf(live[i]).value)) == live[i]
  {
    FindsItself(live, i);
  }

  lemma EntryMeans(live: seq<Json>, i: nat, desired: map<string, Json>)
    requires DistinctNames(live) && i < |live| && Wanted(desired)
    ensures Meant(live, PatchEntry(live[i], desired))
         == if Outdated(live[i], desired) then desired[NameOf(live[i]).value] else live[i]
  {
    InheritMeansItself(live, i);
    if Outdated(live[i], desired) {
      assert IsWanted(NameOf(live[i]).value, desired[NameOf(live[i]).value]);
    }
  }

  function AddedFor(live: seq<Json>, desired: map<string, Json>): seq<Json> {
    ValuesInOrder(desired - Names(live), SORTED_BINDINGS)
  }

  function FullPatch(live: seq<Json>, desired: map<string, Json>): seq<Json>
    requires Named(live)
  {
    PatchEntries(live, desired) + AddedFor(live, desired)
  }

  lemma AddedForMissing(live: seq<Json>, desired: map<string, Json>)
    requires Wanted(desired)
    ensures var added := AddedFor(live, desired);
      && DistinctNames(added)
      && (forall k :: 0 <= k < |added| ==>
            NameOf(added[k]).value in desired && NameOf(added[k]).value !in Names(live) &&
                                           added[k] == desired[NameOf(added[k]).value])
      && (forall name :: name in desired && name !in Names(live) ==>
          exists k :: 0 <= k < |added| && added[k] == desired[name])
  {
    hide NameOf, Matches, GetString;
    var missing := desired - Names(live);
    assert forall name :: name in missing ==> IsWanted(name, desired[name]);
    AddedBindings(missing, SORTED_BINDINGS);
  }

  /** The list after the patch, entry by entry. */
  lemma AppliedPatch(live: seq<Json>, desired: map<string, Json>)
    requires DistinctNames(live) && Wanted(desired)
    ensures var r, added := Applied(live, FullPatch(live, desired)), AddedFor(live, desired);
      && |r| == |live| + |added|
      && (forall k :: 0 <= k < |live| ==>
            r[k] == if Outdated(live[k], desired) then desired[NameOf(live[k]).value] else live[k])
      && (forall k :: 0 <= k < |added| ==> r[|live| + k] == added[k])
  {
    hide NameOf, Matches, PatchEntry, AddedFor;
    var patch, added := FullPatch(live, desired), AddedFor(live, desired);
    AddedForMissing(live, desired);
    forall k | 0 <= k < |live|
      ensures Meant(live, patch[k]) == if Outdated(live[k], desired) then desired[NameOf(live[k]).value] else live[k]
    {
      assert patch[k] == PatchEntry(live[k], desired);
      EntryMeans(live, k, desired);
    }
    forall k | 0 <= k < |added| ensures Meant(live, patch[|live| + k]) == added[k] {
      assert IsWanted(NameOf(added[k]).value, added[k]);
    }
  }

  predicate IsSettings(settings: Json, live: seq<Json>) {
    Get(settings, "bindings") == Some(JArray(live))
  }

  /** The live bindings once reconciliation has succeeded. */
  function ReconciledLive(settings: Json, live: seq<Json>, components: seq<string>,
      instance: string): Result<seq<Json>, PatchError>
  {
    match BindingPatch(settings, components, instance)
    case Err(e) => Err(e)
    case Ok(None) => Ok(live)
    case Ok(Some(patch)) => Ok(Applied(live, patch))
  }

  /** The list has unique names and every wanted binding is there as wanted. */
  ghost predicate UpToDate(bs: seq<Json>, desired: map<string, Json>) {
    && DistinctNames(bs)
    && (forall name :: name in desired ==>
          exists k :: 0 <= k < |bs| && NameOf(bs[k]) == Some(name) && Matches(bs[k], desired[name]))
  }

  lemma UpToDateIsNoPatch(settings: Json, live: seq<Json>, components: seq<string>, instance: string)
    requires IsSettings(settings, live)
    requires Desired(SelectedAdapters(components), instance) != map[]
    ensures BindingPatch(settings, components, instance) == Ok(None) <==>
              UpToDate(live, Desired(SelectedAdapters(components), instance))
  {
    hide NameOf, Matches, InheritJson, DesiredJson;
    var desired := Desired(SelectedAdapters(components), instance);
    var missing := desired - Names(live);
    if BindingPatch(settings, components, instance) == Ok(None) {
      FaultlessIsNamed(live);
      forall name | name in desired
        ensures exists k :: 0 <= k < |live| && NameOf(live[k]) == Some(name) && Matches(live[k], desired[name])
      {
        assert name !in missing;
        NamesAreThoseOfBindings(live, name);
        var k :| 0 <= k < |live| && NameOf(live[k]) == Some(name);
        assert !Outdated(live[k], desired);
      }
    }
    if UpToDate(live, desired) {
      DistinctIsFaultless(live);
      forall name | name in desired ensures name !in missing {
        NamesAreThoseOfBindings(live, name);
      }
      assert missing == map[];
      forall i | 0 <= i < |live| ensures !Outdated(live[i], desired) {
        if NameOf(live[i]).value in desired {
          var k :| 0 <= k < |live| && NameOf(live[k]) == NameOf(live[i]) &&
              Matches(live[k], desired[NameOf(live[i]).value]);
          assert k == i;
        }
      }
    }
  }

  /** Entries of the patched list have unique names, the live ones' first. */
  lemma PatchedNames(live: seq<Json>, desired: map<string, Json>)
    requires DistinctNames(live) && Wanted(desired)
    ensures var r := Applied(live, FullPatch(live, desired));
      && DistinctNames(r)
      && (forall k :: 0 <= k < |live| ==> NameOf(r[k]) == NameOf(live[k]))
      && (forall k :: |live| <= k < |r| ==> NameOf(r[k]).value in desired)
  {
    hide NameOf, Matches, AddedFor, FullPatch, GetString;
    var r, added := Applied(live, FullPatch(live, desired)), AddedFor(live, desired);
    AppliedPatch(live, desired);
    AddedForMissing(live, desired);
    forall k | 0 <= k < |live| ensures NameOf(r[k]) == NameOf(live[k]) {
      if Outdated(live[k], desired) {
        assert IsWanted(NameOf(live[k]).value, desired[NameOf(live[k]).value]);
      }
    }
    forall k | |live| <= k < |r| ensures r[k] == added[k - |live|] {
      assert r[|live| + (k - |live|)] == added[k - |live|];
    }
    forall i, j | 0 <= i < j < |r| ensures NameOf(r[i]) != NameOf(r[j]) {
      if i < |live| <= j {
        NamesAreThoseOfBindings(live, NameOf(r[j]).value);
      }
    }
  }

  lemma PatchedHasWanted(live: seq<Json>, desired: map<string, Json>, name: string)
    requires DistinctNames(live) && Wanted(desired) && name in desired
    ensures var r := Applied(live, FullPatch(live, desired));
      exists k :: 0 <= k < |r| && NameOf(r[k]) == Some(name) && Matches(r[k], desired[name])
  {
    hide NameOf, Matches, AddedFor, FullPatch, GetString;
    var r, added := Applied(live, FullPatch(live, desired)), AddedFor(live, desired);
    AppliedPatch(live, desired);
    AddedForMissing(live, desired);
    assert IsWanted(name, desired[name]);
    NamesAreThoseOfBindings(live, name);
    if name in Names(live) {
      var k :| 0 <= k < |live| && NameOf(live[k]) == Some(name);
      assert NameOf(r[k]) == Some(name) && Matches(r[k], desired[name]);
    } else {
      var k :| 0 <= k < |added| && added[k] == desired[name];
      assert r[|live| + k] == desired[name];
    }
  }

  lemma PatchedIsUpToDate(live: seq<Json>, desired: map<string, Json>)
    requires DistinctNames(live) && Wanted(desired)
    ensures UpToDate(Applied(live, FullPatch(live, desired)), desired)
  {
    hide NameOf, Matches, AddedFor, FullPatch;
    PatchedNames(live, desired);
    forall name | name in desired
      ensures var r := Applied(live, FullPatch(live, desired));
        exists k :: 0 <= k < |r| && NameOf(r[k]) == Some(name) && Matches(r[k], desired[name])
    {
      PatchedHasWanted(live, desired, name);
    }
  }

  /** A successful reconciliation is either no change or the full patch. */
  lemma ReconciledIsPatched(settings: Json, live: seq<Json>, components: seq<string>, instance: string)
    requires IsSettings(settings, live) && Desired(SelectedAdapters(components), instance) != map[]
    requires ReconciledLive(settings, live, components, instance).Ok?
    ensures var r, desired := ReconciledLive(settings, live, components, instance).value,
        Desired(SelectedAdapters(components), instance);
      && DistinctNames(live) && Wanted(desired)
      && (r == Applied(live, FullPatch(live, desired)) || (r == live && UpToDate(live, desired)))
  {
    hide NameOf, Matches, DesiredJson;
    SelectedAreAdapters(components);
    DesiredIsWanted(SelectedAdapters(components), instance);
    FaultlessIsNamed(live);
    if BindingPatch(settings, components, instance) == Ok(None) {
      UpToDateIsNoPatch(settings, live, components, instance);
    }
  }

  /** Reconciling keeps every unselected binding at its place, brings every selected adapter's
      binding to what is wanted, keeps names unique, and has then nothing more to do. */
  lemma ReconcileReachesFixedPoint(settings: Json, live: seq<Json>,
      components: seq<string>, instance: string, settings': Json)
    requires IsSettings(settings, live) && Desired(SelectedAdapters(components), instance) != map[]
    requires ReconciledLive(settings, live, components, instance).Ok?
    requires IsSettings(settings', ReconciledLive(settings, live, components, instance).value)
    ensures var r, desired := ReconciledLive(settings, live, components, instance).value,
        Desired(SelectedAdapters(components), instance);
      && |live| <= |r|
      && (forall k :: 0 <= k < |live| ==> NameOf(live[k]).Some? && NameOf(r[k]) == NameOf(live[k]))
      && (forall k :: 0 <= k < |live| ==> NameOf(live[k]).value !in desired ==> r[k] == live[k])
      && (forall k :: |live| <= k < |r| ==> NameOf(r[k]).Some? && NameOf(r[k]).value in desired)
      && UpToDate(r, desired)
      && BindingPatch(settings', components, instance) == Ok(None)
  {
    hide NameOf, Matches, InheritJson, DesiredJson, AddedFor, FullPatch, ReconciledLive, BindingPatch;
    var desired := Desired(SelectedAdapters(components), instance);
    var r := ReconciledLive(settings, live, components, instance).value;
    ReconciledIsPatched(settings, live, components, instance);
    if r == Applied(live, FullPatch(live, desired)) {
      AppliedPatch(live, desired);
      PatchedNames(live, desired);
      PatchedIsUpToDate(live, desired);
    }
    UpToDateIsNoPatch(settings', r, components, instance);
  }

  lemma UpToDateLink(bs: seq<Json>, desired: map<string, Json>, a: Adapter, instance: string, k: nat)
    requires DistinctNames(bs) && k < |bs| && a in ADAPTERS
    requires NameOf(bs[k]) == Some(a.gatewayBinding) && Matches(bs[k], DesiredJson(a, instance))
    ensures OnlyNamed(bs, a.gatewayBinding, k)
    ensures IsLink(bs[k], OrElse(ScriptName(instance, a.component), ""), a.entrypoint)
  {
    hide NameOf, Matches, IsLink, HasName, DesiredJson;
    MatchesExactly(bs[k], a, instance);
    NameOfExactly(bs[k], a.gatewayBinding);
    forall j | 0 <= j < |bs| && HasName(bs[j], a.gatewayBinding) ensures j == k {
      NameOfExactly(bs[j], a.gatewayBinding);
    }
  }

  /** So after reconciling, the gateway binds every selected adapter. */
  lemma ReconciledGatewayBinds(settings: Json, live: seq<Json>, components: seq<string>, instance: string, a: Adapter)
    requires IsSettings(settings, live)
    requires ReconciledLive(settings, live, components, instance).Ok?
    requires a in SelectedAdapters(components)
    ensures Binds(ReconciledLive(settings, live, components, instance).value, a, instance)
    ensures Resolves(ReconciledLive(settings, live, components, instance).value, a.gatewayBinding,
                     OrElse(ScriptName(instance, a.component), ""), a.entrypoint)
  {
    hide NameOf, Matches, DesiredJson;
    SelectedAreAdapters(components);
    DesiredOfAdapter(SelectedAdapters(components), instance, a);
    var desired := Desired(SelectedAdapters(components), instance);
    var r := ReconciledLive(settings, live, components, instance).value;
    var settings' := JObject(map["bindings" := JArray(r)]);
    assert a.gatewayBinding in desired;
    ReconcileReachesFixedPoint(settings, live, components, instance, settings');
    var k :| 0 <= k < |r| && NameOf(r[k]) == Some(a.gatewayBinding) && Matches(r[k], desired[a.gatewayBinding]);
    UpToDateLink(r, desired, a, instance, k);
  }

  /** Reconciliation fails exactly when the live list is missing, has a binding without a name,
      or has two of the same name. */
  lemma ReconcileFailsExactlyOnBadLists(settings: Json, components: seq<string>, instance: string)
    requires Desired(SelectedAdapters(components), instance) != map[]
    ensures BindingPatch(settings, components, instance).Ok? <==>
              (exists live :: IsSettings(settings, live) && DistinctNames(live))
  {
    if BindingPatch(settings, components, instance).Ok? {
      var live := Get(settings, "bindings").value.items;
      FaultlessIsNamed(live);
      assert IsSettings(settings, live) && DistinctNames(live);
    }
    if exists live :: IsSettings(settings, live) && DistinctNames(live) {
      var live :| IsSettings(settings, live) && DistinctNames(live);
      DistinctIsFaultless(live);
    }
  }

  // ------------------------------------------- what is kept and changed, field by field

  ghost predicate ProperlyNamed(binding: Json) {
    exists name :: HasName(binding, name) && !AllWhitespace(name)
  }

  /** Every binding has a name that is not blank, and no two have the same. */
  ghost predicate ProperNames(bs: seq<Json>) {
    && (forall k :: 0 <= k < |bs| ==> ProperlyNamed(bs[k]))
    && (forall i, j :: 0 <= i < j < |bs| ==> Get(bs[i], "name") != Get(bs[j], "name"))
  }

  lemma ProperExactly(bs: seq<Json>)
    ensures ProperNames(bs) <==> DistinctNames(bs)
  {
    hide NameOf, ProperlyNamed;
    forall k | 0 <= k < |bs|
      ensures ProperlyNamed(bs[k]) <==> NameOf(bs[k]).Some?
      ensures NameOf(bs[k]).Some? ==> Get(bs[k], "name") == Some(JString(NameOf(bs[k]).value))
    {
      ProperlyNamedExactly(bs[k]);
    }
    if DistinctNames(bs) {
      forall i, j | 0 <= i < j < |bs| ensures Get(bs[i], "name") != Get(bs[j], "name") {
        assert NameOf(bs[i]).value != NameOf(bs[j]).value;
      }
    }
  }

  lemma ProperlyNamedExactly(binding: Json)
    ensures ProperlyNamed(binding) <==> NameOf(binding).Some?
    ensures NameOf(binding).Some? ==> Get(binding, "name") == Some(JString(NameOf(binding).value))
  {
    hide NameOf;
    if ProperlyNamed(binding) {
      var name :| HasName(binding, name) && !AllWhitespace(name);
      NameOfExactly(binding, name);
    }
    if NameOf(binding).Some? {
      NameOfExactly(binding, NameOf(binding).value);
    }
  }

  /** The wanted names are the selected adapters'. */
  lemma {:induction false} DesiredNames(adapters: seq<Adapter>, instance: string, name: string)
    ensures name in Desired(adapters, instance)
        <==> exists k :: 0 <= k < |adapters| && adapters[k].gatewayBinding == name
  {
    if adapters != [] {
      var n := |adapters| - 1;
      DesiredNames(adapters[..n], instance, name);
      if k :| 0 <= k < n && adapters[k].gatewayBinding == name {
        assert adapters[..n][k] == adapters[k];
      }
    }
  }

  ghost predicate AllResolve(bs: seq<Json>, components: seq<string>, instance: string) {
    forall a :: a in SelectedAdapters(components) ==>
      Resolves(bs, a.gatewayBinding, OrElse(ScriptName(instance, a.component), ""), a.entrypoint)
  }

  lemma ResolvesIsMatched(bs: seq<Json>, a: Adapter, instance: string)
    requires a in ADAPTERS
    requires Resolves(bs, a.gatewayBinding, OrElse(ScriptName(instance, a.component), ""), a.entrypoint)
    ensures exists k :: 0 <= k < |bs| && NameOf(bs[k]) == Some(a.gatewayBinding) &&
                        Matches(bs[k], DesiredJson(a, instance))
  {
    hide NameOf, Matches, DesiredJson;
    var service := OrElse(ScriptName(instance, a.component), "");
    var k :| 0 <= k < |bs| && OnlyNamed(bs, a.gatewayBinding, k) && IsLink(bs[k], service, a.entrypoint);
    AdapterNames(a, instance);
    NameOfExactly(DesiredJson(a, instance), a.gatewayBinding);
    NameOfExactly(bs[k], a.gatewayBinding);
    MatchesExactly(bs[k], a, instance);
  }

  lemma UpToDateExactly(bs: seq<Json>, components: seq<string>, instance: string)
    ensures UpToDate(bs, Desired(SelectedAdapters(components), instance))
        <==> ProperNames(bs) && AllResolve(bs, components, instance)
  {
    hide NameOf, Matches, DesiredJson, ProperNames, Resolves, SelectedAdapters;
    var adapters := SelectedAdapters(components);
    var desired := Desired(adapters, instance);
    ProperExactly(bs);
    SelectedAreAdapters(components);
    if UpToDate(bs, desired) {
      forall a | a in adapters
        ensures Resolves(bs, a.gatewayBinding, OrElse(ScriptName(instance, a.component), ""), a.entrypoint)
      {
        DesiredOfAdapter(adapters, instance, a);
        var k :| 0 <= k < |bs| && NameOf(bs[k]) == Some(a.gatewayBinding) && Matches(bs[k], desired[a.gatewayBinding]);
        UpToDateLink(bs, desired, a, instance, k);
        ResolvesBy(bs, a.gatewayBinding, OrElse(ScriptName(instance, a.component), ""), a.entrypoint, k);
      }
    }
    if ProperNames(bs) && AllResolve(bs, components, instance) {
      forall name | name in desired
        ensures exists k :: 0 <= k < |bs| && NameOf(bs[k]) == Some(name) && Matches(bs[k], desired[name])
      {
        DesiredNames(adapters, instance, name);
        var n :| 0 <= n < |adapters| && adapters[n].gatewayBinding == name;
        assert adapters[n] in adapters;
        DesiredOfAdapter(adapters, instance, adapters[n]);
        ResolvesIsMatched(bs, adapters[n], instance);
      }
    }
  }

  lemma ResolvesBy(bs: seq<Json>, name: string, service: string, entrypoint: string, k: nat)
    requires k < |bs| && OnlyNamed(bs, name, k) && IsLink(bs[k], service, entrypoint)
    ensures Resolves(bs, name, service, entrypoint)
  {
  }

  /** There is nothing to patch exactly when names are proper and every selected adapter's name
      has one binding, to the adapter's own worker through its entrypoint. */
  lemma NothingToPatchExactly(settings: Json, live: seq<Json>, components: seq<string>, instance: string)
    requires IsSettings(settings, live) && SelectedAdapters(components) != []
    ensures BindingPatch(settings, components, instance) == Ok(None)
        <==> ProperNames(live) && AllResolve(live, components, instance)
  {
    hide BindingPatch, ProperNames, AllResolve, UpToDate, Desired;
    DesiredNames(SelectedAdapters(components), instance, SelectedAdapters(components)[0].gatewayBinding);
    UpToDateExactly(live, components, instance);
    UpToDateIsNoPatch(settings, live, components, instance);
  }

  /** The name belongs to a selected adapter. */
  predicate SelectedName(components: seq<string>, name: string) {
    exists k :: 0 <= k < |SelectedAdapters(components)| && SelectedAdapters(components)[k].gatewayBinding == name
  }

  /** A successful reconciliation leaves every binding that is not a selected adapter's exactly as
      it is and where it is, adds bindings of selected adapters only, and leaves every selected
      adapter's name with one binding, to its own worker through its entrypoint. */
  lemma ReconcileChangesOnlySelected(settings: Json, live: seq<Json>, components: seq<string>, instance: string)
    requires IsSettings(settings, live) && SelectedAdapters(components) != []
    requires ReconciledLive(settings, live, components, instance).Ok?
    ensures var r := ReconciledLive(settings, live, components, instance).value;
      && |live| <= |r|
      && (forall k :: 0 <= k < |live| ==> Get(r[k], "name") == Get(live[k], "name"))
      && (forall k, name :: 0 <= k < |live| && HasName(live[k], name) && !SelectedName(components, name) ==>
            r[k] == live[k])
      && (forall k :: |live| <= k < |r| ==> exists name :: HasName(r[k], name) && SelectedName(components, name))
      && ProperNames(r) && AllResolve(r, components, instance)
  {
    hide NameOf, ProperNames, AllResolve, UpToDate, Desired, ReconciledLive, BindingPatch;
    var r := ReconciledLive(settings, live, components, instance).value;
    var desired := Desired(SelectedAdapters(components), instance);
    var settings' := JObject(map["bindings" := JArray(r)]);
    forall name ensures name in desired <==> SelectedName(components, name) {
      DesiredNames(SelectedAdapters(components), instance, name);
    }
    assert SelectedName(components, SelectedAdapters(components)[0].gatewayBinding);
    ReconcileReachesFixedPoint(settings, live, components, instance, settings');
    UpToDateExactly(r, components, instance);
    forall k | 0 <= k < |r| ensures NameOf(r[k]).Some? ==> HasName(r[k], NameOf(r[k]).value) {
      if NameOf(r[k]).Some? { NameOfExactly(r[k], NameOf(r[k]).value); }
    }
    forall k | 0 <= k < |live| ensures HasName(live[k], NameOf(live[k]).value) {
      NameOfExactly(live[k], NameOf(live[k]).value);
    }
  }

  /** Of several faults, the one reported is the first in list order. */
  lemma {:induction false} FaultIsFirst(bs: seq<Json>)
    ensures match FirstFault(bs)
      case None => DistinctNames(bs)
      case Some(NoBindings) => false
      case Some(Unnamed(i)) => i < |bs| && DistinctNames(bs[..i]) && NameOf(bs[i]).None?
      case Some(Duplicate(name)) =>
        exists i, j :: 0 <= j < i < |bs| && DistinctNames(bs[..i]) && NameOf(bs[i]) == NameOf(bs[j]) == Some(name)
  {
    hide NameOf;
    if bs != [] {
      var n := |bs| - 1;
      FaultIsFirst(bs[..n]);
      match FirstFault(bs[..n])
      case Some(Unnamed(i)) => assert bs[..n][..i] == bs[..i];
      case Some(Duplicate(name)) =>
        var i, j :| 0 <= j < i < n && DistinctNames(bs[..n][..i]) &&
          NameOf(bs[..n][i]) == NameOf(bs[..n][j]) == Some(name);
        assert bs[..n][..i] == bs[..i] && bs[..n][i] == bs[i] && bs[..n][j] == bs[j];
      case None =>
        if NameOf(bs[n]).Some? {
          NamesAreThoseOfBindings(bs[..n], NameOf(bs[n]).value);
          if NameOf(bs[n]).value in Names(bs[..n]) {
            var j :| 0 <= j < n && NameOf(bs[..n][j]) == NameOf(bs[n]);
            assert bs[..n][j] == bs[j];
          }
          assert forall k :: 0 <= k < n ==> bs[..n][k] == bs[k];
        }
    }
  }

  /** Missing bindings are added in the order of their names. */
  lemma SortedBindingsAscend(i: nat, j: nat)
    requires i < j < |SORTED_BINDINGS|
    ensures var s, t := SORTED_BINDINGS[i], SORTED_BINDINGS[j];
      exists n :: 0 <= n < |s| && n < |t| && s[..n] == t[..n] && s[n] < t[n]
  {
    var s, t := SORTED_BINDINGS[i], SORTED_BINDINGS[j];
    assert s[..8] == t[..8] && s[8] < t[8];
  }
}
