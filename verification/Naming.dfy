/**
 Instance and worker names (cli/src/deploy.rs): which instance names are
 accepted, which worker each component of an instance is deployed as, and
 which workers a teardown deletes.
 */
module Naming {
  import opened Common
  import opened Sorting

  const GATEWAY := "gateway"
  const RIPGIT := "ripgit"
  const WHATSAPP := "channel-whatsapp"
  const DISCORD := "channel-discord"
  const TELEGRAM := "channel-telegram"
  const LEGACY_ASSEMBLER := "assembler"

  const DEFAULT_INSTANCE := "gsv"
  const SCRIPT_GATEWAY := "gsv"
  const SCRIPT_RIPGIT := "ripgit"
  const GATEWAY_ENTRYPOINT := "GatewayEntrypoint"

  datatype Adapter = Adapter(component: string, defaultScript: string, gatewayBinding: string, entrypoint: string)

  const ADAPTERS: seq<Adapter> := [
    Adapter(WHATSAPP, "gsv-channel-whatsapp", "CHANNEL_WHATSAPP", "WhatsAppChannelEntrypoint"),
    Adapter(DISCORD, "gsv-channel-discord", "CHANNEL_DISCORD", "DiscordChannel"),
    Adapter(TELEGRAM, "gsv-channel-telegram", "CHANNEL_TELEGRAM", "TelegramChannel")
  ]

  const AVAILABLE_COMPONENTS: seq<string> := [RIPGIT, GATEWAY, WHATSAPP, DISCORD, TELEGRAM]

  const RESERVED_SUFFIXES: seq<string> := ["-ripgit", "-channel-whatsapp", "-channel-discord", "-channel-telegram"]

  // ------------------------------------------------------------ instance names

  /** The Unicode White_Space characters that `trim` removes. */
  predicate IsWhitespace(c: char) {
    '\U{09}' <= c <= '\U{0D}' || c == ' ' || c == '\U{85}' || c == '\U{A0}' || c == '\U{1680}' ||
    '\U{2000}' <= c <= '\U{200A}' || c == '\U{2028}' || c == '\U{2029}' || c == '\U{202F}' ||
    c == '\U{205F}' || c == '\U{3000}'
  }

  function TrimStart(s: string): string {
    if s != "" && IsWhitespace(s[0]) then TrimStart(s[1..]) else s
  }

  function TrimEnd(s: string): string {
    if s != "" && IsWhitespace(s[|s| - 1]) then TrimEnd(s[..|s| - 1]) else s
  }

  function Trim(s: string): string {
    TrimEnd(TrimStart(s))
  }

  function ToAsciiLowercase(s: string): (r: string)
    ensures |r| == |s|
    ensures forall i :: 0 <= i < |s| ==> r[i] == if 'A' <= s[i] <= 'Z' then (s[i] as int + 32) as char else s[i]
  {
    seq(|s|, i requires 0 <= i < |s| => if 'A' <= s[i] <= 'Z' then (s[i] as int + 32) as char else s[i])
  }

  predicate IsNameChar(c: char) {
    'a' <= c <= 'z' || '0' <= c <= '9' || c == '-'
  }

  predicate EndsWith(s: string, suffix: string) {
    |suffix| <= |s| && s[|s| - |suffix|..] == suffix
  }

  predicate Reserved(name: string) {
    name != DEFAULT_INSTANCE &&
    (name == SCRIPT_RIPGIT || exists k :: 0 <= k < |RESERVED_SUFFIXES| && EndsWith(name, RESERVED_SUFFIXES[k]))
  }

  datatype NameError = Empty | DashAtEnd | BadCharacter | Collides

  function NormalizeInstanceName(raw: string): Result<string, NameError> {
    var name := ToAsciiLowercase(Trim(raw));
    if name == "" then Err(Empty)
    else if name[0] == '-' || name[|name| - 1] == '-' then Err(DashAtEnd)
    else if exists i :: 0 <= i < |name| && !IsNameChar(name[i]) then Err(BadCharacter)
    else if Reserved(name) then Err(Collides)
    else Ok(name)
  }

  /** The names an instance can have. */
  predicate ValidInstance(name: string) {
    NormalizeInstanceName(name) == Ok(name)
  }

  lemma {:induction false} TrimNothing(s: string)
    requires s != "" && !IsWhitespace(s[0]) && !IsWhitespace(s[|s| - 1])
    ensures Trim(s) == s
  {
    assert TrimStart(s) == s;
  }

  /** Normalising is idempotent: what is returned is itself an accepted name. */
  lemma NormalizedIsValid(raw: string)
    requires NormalizeInstanceName(raw).Ok?
    ensures ValidInstance(NormalizeInstanceName(raw).value)
  {
    var name := NormalizeInstanceName(raw).value;
    assert IsNameChar(name[0]) && IsNameChar(name[|name| - 1]);
    TrimNothing(name);
    forall i | 0 <= i < |name| ensures !('A' <= name[i] <= 'Z') {
      assert IsNameChar(name[i]);
    }
    assert ToAsciiLowercase(name) == name;
  }

  predicate AllWhitespace(s: string) {
    forall i :: 0 <= i < |s| ==> IsWhitespace(s[i])
  }

  /** No whitespace at either end. */
  predicate Tight(s: string) {
    s != "" ==> !IsWhitespace(s[0]) && !IsWhitespace(s[|s| - 1])
  }

  lemma {:induction false} TrimStartOf(a: string, rest: string)
    requires AllWhitespace(a) && (rest != "" ==> !IsWhitespace(rest[0]))
    ensures TrimStart(a + rest) == rest
  {
    if a == "" {
      assert a + rest == rest;
    } else {
      assert (a + rest)[1..] == a[1..] + rest;
      TrimStartOf(a[1..], rest);
    }
  }

  lemma {:induction false} TrimEndOf(rest: string, b: string)
    requires AllWhitespace(b) && (rest != "" ==> !IsWhitespace(rest[|rest| - 1]))
    ensures TrimEnd(rest + b) == rest
  {
    if b == "" {
      assert rest + b == rest;
    } else {
      var s := rest + b;
      assert s[..|s| - 1] == rest + b[..|b| - 1];
      TrimEndOf(rest, b[..|b| - 1]);
    }
  }

  /** Trimming removes the whitespace around a text and nothing else. */
  lemma TrimOf(a: string, core: string, b: string)
    requires AllWhitespace(a) && AllWhitespace(b) && Tight(core)
    ensures Trim(a + core + b) == core
  {
    if core == "" {
      assert a + core + b == (a + b) + "";
      TrimStartOf(a + b, "");
    } else {
      assert a + core + b == a + (core + b);
      TrimStartOf(a, core + b);
      TrimEndOf(core, b);
    }
  }

  lemma {:induction false} TrimStartSplits(s: string) returns (a: string)
    ensures s == a + TrimStart(s) && AllWhitespace(a)
    ensures TrimStart(s) != "" ==> !IsWhitespace(TrimStart(s)[0])
  {
    if s != "" && IsWhitespace(s[0]) {
      a := TrimStartSplits(s[1..]);
      a := [s[0]] + a;
    } else {
      a := "";
    }
  }

  lemma {:induction false} TrimEndSplits(s: string) returns (b: string)
    ensures s == TrimEnd(s) + b && AllWhitespace(b)
    ensures TrimEnd(s) != "" ==> !IsWhitespace(TrimEnd(s)[|TrimEnd(s)| - 1])
  {
    if s != "" && IsWhitespace(s[|s| - 1]) {
      b := TrimEndSplits(s[..|s| - 1]);
      b := b + [s[|s| - 1]];
    } else {
      b := "";
    }
  }

  lemma TrimSplits(s: string) returns (a: string, b: string)
    ensures s == a + Trim(s) + b && AllWhitespace(a) && AllWhitespace(b) && Tight(Trim(s))
  {
    hide TrimStart, TrimEnd;
    a := TrimStartSplits(s);
    b := TrimEndSplits(TrimStart(s));
    if Trim(s) != "" {
      assert Trim(s)[0] == TrimStart(s)[0];
    }
  }

  /** The two texts differ only in the case of ASCII letters, the second being in lower case. */
  predicate Lowered(core: string, name: string) {
    && |core| == |name|
    && forall i :: 0 <= i < |core| ==>
         if 'A' <= core[i] <= 'Z' then name[i] as int == core[i] as int + 32 else name[i] == core[i]
  }

  /** What an instance may be called, in full. */
  predicate Acceptable(name: string) {
    && name != "" && name[0] != '-' && name[|name| - 1] != '-'
    && (forall i :: 0 <= i < |name| ==> 'a' <= name[i] <= 'z' || '0' <= name[i] <= '9' || name[i] == '-')
    && (name == "gsv" ||
        (name != "ripgit" && !EndsWith(name, "-ripgit") && !EndsWith(name, "-channel-whatsapp") &&
         !EndsWith(name, "-channel-discord") && !EndsWith(name, "-channel-telegram")))
  }

  ghost predicate Written(raw: string, name: string) {
    exists a: string, core: string, b: string ::
      raw == a + core + b && AllWhitespace(a) && AllWhitespace(b) && Lowered(core, name)
  }

  lemma ReservedExactly(name: string)
    ensures !Reserved(name) <==>
              name == "gsv" ||
              (name != "ripgit" && !EndsWith(name, "-ripgit") && !EndsWith(name, "-channel-whatsapp") &&
               !EndsWith(name, "-channel-discord") && !EndsWith(name, "-channel-telegram"))
  {
    assert RESERVED_SUFFIXES[0] == "-ripgit" && RESERVED_SUFFIXES[1] == "-channel-whatsapp";
    assert RESERVED_SUFFIXES[2] == "-channel-discord" && RESERVED_SUFFIXES[3] == "-channel-telegram";
  }

  lemma LoweredIsTight(core: string, name: string)
    requires Lowered(core, name) && Acceptable(name)
    ensures Tight(core) && ToAsciiLowercase(core) == name
  {
    hide EndsWith;
  }

  lemma AcceptedIsWritten(raw: string, name: string)
    requires NormalizeInstanceName(raw) == Ok(name)
    ensures Acceptable(name) && Written(raw, name)
  {
    hide Trim, EndsWith, Reserved;
    ReservedExactly(name);
    var a, b := TrimSplits(raw);
    assert Lowered(Trim(raw), name);
    forall i | 0 <= i < |name| ensures 'a' <= name[i] <= 'z' || '0' <= name[i] <= '9' || name[i] == '-' {
      assert IsNameChar(name[i]);
    }
  }

  lemma WrittenIsAccepted(raw: string, name: string)
    requires Acceptable(name) && Written(raw, name)
    ensures NormalizeInstanceName(raw) == Ok(name)
  {
    hide Trim, EndsWith, Reserved, Lowered, ToAsciiLowercase;
    ReservedExactly(name);
    var a: string, core: string, b: string :|
      raw == a + core + b && AllWhitespace(a) && AllWhitespace(b) && Lowered(core, name);
    LoweredIsTight(core, name);
    TrimOf(a, core, b);
  }

  /** A text is accepted as a name exactly when it is that name, in any case and with whitespace
      around it, and the name is acceptable. */
  lemma AcceptedExactly(raw: string, name: string)
    ensures NormalizeInstanceName(raw) == Ok(name) <==> Acceptable(name) && Written(raw, name)
  {
    hide NormalizeInstanceName, Acceptable, Written;
    if NormalizeInstanceName(raw) == Ok(name) {
      AcceptedIsWritten(raw, name);
    }
    if Acceptable(name) && Written(raw, name) {
      WrittenIsAccepted(raw, name);
    }
  }

  /** Which of the errors a refused text is given. */
  lemma RefusedBecause(raw: string)
    requires NormalizeInstanceName(raw).Err?
    ensures var name := ToAsciiLowercase(Trim(raw));
      match NormalizeInstanceName(raw).error
      case Empty => AllWhitespace(raw)
      case DashAtEnd => name != "" && (name[0] == '-' || name[|name| - 1] == '-')
      case BadCharacter =>
        exists i :: 0 <= i < |name| && !('a' <= name[i] <= 'z' || '0' <= name[i] <= '9' || name[i] == '-')
      case Collides => name != "gsv" && Reserved(name)
  {
    hide Trim, EndsWith;
    var a, b := TrimSplits(raw);
    var name := ToAsciiLowercase(Trim(raw));
    if i :| 0 <= i < |name| && !IsNameChar(name[i]) {
      assert !('a' <= name[i] <= 'z' || '0' <= name[i] <= '9' || name[i] == '-');
    }
  }

  // -------------------------------------------------------------- worker names

  function ScriptName(instance: string, component: string): Option<string> {
    if component == GATEWAY then Some(instance)
    else if component == RIPGIT && instance == DEFAULT_INSTANCE then Some(SCRIPT_RIPGIT)
    else if component == RIPGIT then Some(instance + "-ripgit")
    else if component == WHATSAPP then Some(instance + "-channel-whatsapp")
    else if component == DISCORD then Some(instance + "-channel-discord")
    else if component == TELEGRAM then Some(instance + "-channel-telegram")
    else None
  }

  function LegacyAssemblerName(instance: string): string {
    instance + "-assembler"
  }

  function AdapterOf(component: string): Option<Adapter> {
    if component == WHATSAPP then Some(ADAPTERS[0])
    else if component == DISCORD then Some(ADAPTERS[1])
    else if component == TELEGRAM then Some(ADAPTERS[2])
    else None
  }

  function AdapterOfScript(script: string): Option<Adapter> {
    if script == ADAPTERS[0].defaultScript then Some(ADAPTERS[0])
    else if script == ADAPTERS[1].defaultScript then Some(ADAPTERS[1])
    else if script == ADAPTERS[2].defaultScript then Some(ADAPTERS[2])
    else None
  }

  function OrElse(name: Option<string>, default: string): string {
    if name.Some? then name.value else default
  }

  /** Bundled configurations name the default instance's workers; this rescopes a target. */
  function ScriptNameForConfigService(instance: string, service: string): string {
    var adapter := AdapterOfScript(service);
    if adapter.Some? then OrElse(ScriptName(instance, adapter.value.component), service)
    else if service == SCRIPT_GATEWAY then OrElse(ScriptName(instance, GATEWAY), service)
    else if service == SCRIPT_RIPGIT then OrElse(ScriptName(instance, RIPGIT), service)
    else service
  }

  predicate Supported(component: string) {
    component in AVAILABLE_COMPONENTS
  }

  lemma SupportedHasScript(instance: string, component: string)
    ensures Supported(component) <==> ScriptName(instance, component).Some?
  {
    assert AVAILABLE_COMPONENTS[0] == RIPGIT && AVAILABLE_COMPONENTS[1] == GATEWAY &&
        AVAILABLE_COMPONENTS[2] == WHATSAPP;
    assert AVAILABLE_COMPONENTS[3] == DISCORD && AVAILABLE_COMPONENTS[4] == TELEGRAM;
  }

  lemma SupportedExactly(component: string)
    ensures Supported(component) <==>
              component == "gateway" || component == "ripgit" || component == "channel-whatsapp" ||
              component == "channel-discord" || component == "channel-telegram"
  {
    SupportedHasScript("gsv", component);
  }

  /** The gateway's worker is named after the instance and every other one after the instance and
      the component, except that the default instance's ripgit has the plain name. */
  lemma ScriptNamesAre(instance: string, component: string)
    ensures ScriptName(instance, component) ==
              if !Supported(component) then None
              else if component == "gateway" then Some(instance)
              else if component == "ripgit" && instance == "gsv" then Some("ripgit")
              else Some(instance + "-" + component)
  {
    SupportedExactly(component);
    assert instance + "-" + "ripgit" == instance + "-ripgit";
    assert instance + "-" + "channel-whatsapp" == instance + "-channel-whatsapp";
    assert instance + "-" + "channel-discord" == instance + "-channel-discord";
    assert instance + "-" + "channel-telegram" == instance + "-channel-telegram";
  }

  /** The adapters there are. */
  lemma AdaptersAre(a: Adapter)
    ensures a in ADAPTERS <==>
              a == Adapter("channel-whatsapp", "gsv-channel-whatsapp",
                           "CHANNEL_WHATSAPP", "WhatsAppChannelEntrypoint") ||
              a == Adapter("channel-discord", "gsv-channel-discord", "CHANNEL_DISCORD", "DiscordChannel") ||
              a == Adapter("channel-telegram", "gsv-channel-telegram", "CHANNEL_TELEGRAM", "TelegramChannel")
  {
    assert a in ADAPTERS <==> a == ADAPTERS[0] || a == ADAPTERS[1] || a == ADAPTERS[2];
  }

  /** The default instance's workers have the names bundled configurations use. */
  lemma DefaultScripts()
    ensures ScriptName("gsv", "gateway") == Some("gsv") && ScriptName("gsv", "ripgit") == Some("ripgit")
    ensures ScriptName("gsv", "channel-whatsapp") == Some("gsv-channel-whatsapp")
    ensures ScriptName("gsv", "channel-discord") == Some("gsv-channel-discord")
    ensures ScriptName("gsv", "channel-telegram") == Some("gsv-channel-telegram")
  {
    assert "gsv" + "-channel-whatsapp" == "gsv-channel-whatsapp";
    assert "gsv" + "-channel-discord" == "gsv-channel-discord";
    assert "gsv" + "-channel-telegram" == "gsv-channel-telegram";
  }

  /** An adapter is found by its component and by its default worker, and by nothing else. */
  lemma AdaptersAreFound(name: string, a: Adapter)
    ensures AdapterOf(name) == Some(a) <==> a in ADAPTERS && a.component == name
    ensures AdapterOfScript(name) == Some(a) <==> a in ADAPTERS && a.defaultScript == name
    ensures a in ADAPTERS ==> ScriptName(DEFAULT_INSTANCE, a.component) == Some(a.defaultScript)
  {
    hide ScriptName;
    assert ADAPTERS[0].component[8] == 'w' && ADAPTERS[1].component[8] == 'd' && ADAPTERS[2].component[8] == 't';
    assert ADAPTERS[0].defaultScript[12] == 'w' && ADAPTERS[1].defaultScript[12] == 'd';
    assert ADAPTERS[2].defaultScript[12] == 't';
    assert a in ADAPTERS <==> a == ADAPTERS[0] || a == ADAPTERS[1] || a == ADAPTERS[2];
    DefaultScripts();
  }

  lemma ConfigServices(instance: string)
    ensures Some(ScriptNameForConfigService(instance, "gsv")) == ScriptName(instance, "gateway")
    ensures Some(ScriptNameForConfigService(instance, "ripgit")) == ScriptName(instance, "ripgit")
    ensures Some(ScriptNameForConfigService(instance, "gsv-channel-whatsapp"))
         == ScriptName(instance, "channel-whatsapp")
    ensures Some(ScriptNameForConfigService(instance, "gsv-channel-discord")) == ScriptName(instance, "channel-discord")
    ensures Some(ScriptNameForConfigService(instance, "gsv-channel-telegram"))
         == ScriptName(instance, "channel-telegram")
  {
    assert ADAPTERS[0].defaultScript[12] == 'w' && ADAPTERS[1].defaultScript[12] == 'd';
    assert ADAPTERS[2].defaultScript[12] == 't';
    assert |"gsv"| == 3 && |"ripgit"| == 6;
    assert |ADAPTERS[0].defaultScript| == 20 && |ADAPTERS[1].defaultScript| == 19 && |ADAPTERS[2].defaultScript| == 20;
  }

  /** A target that names a worker of the default instance is rescoped to the same component's
      worker of this instance. */
  lemma ConfigServiceOfComponent(instance: string, service: string, component: string)
    requires ScriptName(DEFAULT_INSTANCE, component) == Some(service)
    ensures Some(ScriptNameForConfigService(instance, service)) == ScriptName(instance, component)
  {
    hide ScriptName, ScriptNameForConfigService, Supported;
    ScriptNamesAre(DEFAULT_INSTANCE, component);
    SupportedExactly(component);
    DefaultScripts();
    ConfigServices(instance);
  }

  /** Every other target is left as it is. */
  lemma OtherConfigServiceStays(instance: string, service: string)
    requires forall c :: Supported(c) ==> ScriptName(DEFAULT_INSTANCE, c) != Some(service)
    ensures ScriptNameForConfigService(instance, service) == service
  {
    hide ScriptName;
    SupportedExactly(GATEWAY);
    SupportedExactly(RIPGIT);
    SupportedExactly(WHATSAPP);
    SupportedExactly(DISCORD);
    SupportedExactly(TELEGRAM);
    DefaultScripts();
  }

  /** Each component once, at its first mention. */
  function Deduplicated(raw: seq<string>): seq<string> {
    if raw == [] then []
    else
      var n := |raw| - 1;
      Deduplicated(raw[..n]) + if raw[n] in raw[..n] then [] else [raw[n]]
  }

  /** The components of a command line: all of them if none is named, an error for an unknown one. */
  method NormalizeComponents(raw: seq<string>) returns (r: Result<seq<string>, string>)
    ensures raw == [] ==> r == Ok(AVAILABLE_COMPONENTS)
    ensures raw != [] ==> (r.Ok? <==> forall c :: c in raw ==> Supported(c))
    ensures raw != [] && r.Ok? ==> r.value == Deduplicated(raw)
    ensures r.Err? ==> !Supported(r.error)
    ensures r.Err? ==> exists i :: 0 <= i < |raw| && raw[i] == r.error && forall k :: 0 <= k < i ==> Supported(raw[k])
  {
    if raw == [] {
      return Ok(AVAILABLE_COMPONENTS);
    }
    var seen: set<string> := {};
    var out: seq<string> := [];
    for i := 0 to |raw|
      invariant out == Deduplicated(raw[..i])
      invariant forall c :: c in seen <==> c in raw[..i]
      invariant forall k :: 0 <= k < i ==> Supported(raw[k])
    {
      if !Supported(raw[i]) {
        return Err(raw[i]);
      }
      assert raw[..i + 1][..i] == raw[..i];
      if raw[i] !in seen {
        seen := seen + {raw[i]};
        out := out + [raw[i]];
      }
      assert raw[..i + 1] == raw[..i] + [raw[i]];
    }
    assert raw[..|raw|] == raw;
    return Ok(out);
  }

  lemma {:induction false} DeduplicatedIsDistinct(raw: seq<string>)
    ensures Distinct(Deduplicated(raw))
    ensures forall c :: c in Deduplicated(raw) <==> c in raw
  {
    if raw != [] {
      var n := |raw| - 1;
      DeduplicatedIsDistinct(raw[..n]);
      assert raw == raw[..n] + [raw[n]];
    }
  }

  /** Components keep the order in which they are first mentioned. */
  lemma {:induction false} FirstMentionsInOrder(raw: seq<string>, i: nat, j: nat)
    requires i < j < |Deduplicated(raw)|
    ensures exists k :: 0 <= k < |raw| && raw[k] == Deduplicated(raw)[i] && Deduplicated(raw)[j] !in raw[..k + 1]
  {
    var n := |raw| - 1;
    var before := Deduplicated(raw[..n]);
    DeduplicatedIsDistinct(raw[..n]);
    if j < |before| {
      FirstMentionsInOrder(raw[..n], i, j);
      var k :| 0 <= k < n && raw[..n][k] == before[i] && before[j] !in raw[..n][..k + 1];
      assert raw[..n][..k + 1] == raw[..k + 1];
      assert raw[k] == Deduplicated(raw)[i];
    } else {
      assert before[i] in raw[..n];
      var k :| 0 <= k < n && raw[..n][k] == before[i];
      assert raw[..k + 1] <= raw[..n];
      assert raw[k] == Deduplicated(raw)[i];
    }
  }

  lemma ValidNotReserved(name: string)
    requires ValidInstance(name)
    ensures name != "" && name != SCRIPT_RIPGIT
    ensures name[0] != '-' && name[|name| - 1] != '-'
    ensures forall k :: 0 <= k < |RESERVED_SUFFIXES| ==> !EndsWith(name, RESERVED_SUFFIXES[k])
  {
    hide ToAsciiLowercase, Trim;
    assert IsNameChar('-');
    if name == DEFAULT_INSTANCE {
      forall k | 0 <= k < |RESERVED_SUFFIXES| ensures !EndsWith(name, RESERVED_SUFFIXES[k]) {
        SuffixesAreLong(k);
      }
    }
  }

  lemma SuffixesAreLong(k: nat)
    requires k < |RESERVED_SUFFIXES|
    ensures |RESERVED_SUFFIXES[k]| > |DEFAULT_INSTANCE| && RESERVED_SUFFIXES[k][|RESERVED_SUFFIXES[k]| - 1] != 'r'
  {
    assert k == 0 || k == 1 || k == 2 || k == 3;
  }

  /** The component's suffix, when its worker is named by appending one. */
  function SuffixOf(component: string): string {
    if component == RIPGIT then RESERVED_SUFFIXES[0]
    else if component == WHATSAPP then RESERVED_SUFFIXES[1]
    else if component == DISCORD then RESERVED_SUFFIXES[2]
    else RESERVED_SUFFIXES[3]
  }

  lemma SuffixedNameEndsWith(instance: string, component: string)
    requires Supported(component) && component != GATEWAY
    requires !(component == RIPGIT && instance == DEFAULT_INSTANCE)
    ensures ScriptName(instance, component) == Some(instance + SuffixOf(component))
    ensures EndsWith(instance + SuffixOf(component), SuffixOf(component))
  {
    SupportedHasScript(instance, component);
  }

  /** Workers whose name is not the instance name followed by a suffix. */
  predicate PlainlyNamed(instance: string, component: string) {
    component == GATEWAY || (component == RIPGIT && instance == DEFAULT_INSTANCE)
  }

  lemma SuffixedNamesInjective(i: string, c: string, j: string, d: string)
    requires Supported(c) && Supported(d) && c != GATEWAY && d != GATEWAY
    requires i + SuffixOf(c) == j + SuffixOf(d)
    ensures i == j && c == d
  {
    SupportedHasScript(i, c);
    SupportedHasScript(j, d);
    var n, x, y := i + SuffixOf(c), SuffixOf(c), SuffixOf(d);
    assert n[|n| - 1] == x[|x| - 1];
    assert n[|n| - 1] == y[|y| - 1];
    assert c == d;
    assert i == n[..|n| - |x|] && j == n[..|n| - |y|];
  }

  lemma PlainDiffersFromSuffixed(i: string, c: string, j: string, d: string)
    requires ValidInstance(i) && ValidInstance(j) && Supported(d)
    requires PlainlyNamed(i, c) && !PlainlyNamed(j, d)
    ensures ScriptName(i, c) != ScriptName(j, d)
  {
    ValidNotReserved(i);
    ValidNotReserved(j);
    SuffixedNameEndsWith(j, d);
    if c == GATEWAY {
      assert exists k :: 0 <= k < |RESERVED_SUFFIXES| && SuffixOf(d) == RESERVED_SUFFIXES[k];
    } else {
      assert |j + SuffixOf(d)| > |SCRIPT_RIPGIT|;
    }
  }

  /** No two workers of accepted instances share a name. */
  lemma ScriptNamesInjective(i: string, c: string, j: string, d: string)
    requires ValidInstance(i) && ValidInstance(j)
    requires Supported(c) && Supported(d)
    requires ScriptName(i, c) == ScriptName(j, d)
    ensures i == j && c == d
  {
    if PlainlyNamed(i, c) && PlainlyNamed(j, d) {
      ValidNotReserved(i);
      ValidNotReserved(j);
    } else if PlainlyNamed(i, c) {
      PlainDiffersFromSuffixed(i, c, j, d);
    } else if PlainlyNamed(j, d) {
      PlainDiffersFromSuffixed(j, d, i, c);
    } else {
      SuffixedNameEndsWith(i, c);
      SuffixedNameEndsWith(j, d);
      SuffixedNamesInjective(i, c, j, d);
    }
  }

  // ------------------------------------------------------------------ teardown

  function DeployOrder(component: string): nat {
    if component == RIPGIT then 0
    else if component == WHATSAPP then 1
    else if component == DISCORD then 2
    else if component == TELEGRAM then 3
    else if component == LEGACY_ASSEMBLER then 9
    else if component == GATEWAY then 10
    else 100
  }

  predicate FullTeardown(components: seq<string>) {
    forall k :: 0 <= k < |AVAILABLE_COMPONENTS| ==> AVAILABLE_COMPONENTS[k] in components
  }

  function TeardownTargets(components: seq<string>): seq<string> {
    components + if FullTeardown(components) then [LEGACY_ASSEMBLER] else []
  }

  function ScriptsInOrder(order: seq<string>, instance: string): Result<seq<(string, string)>, string> {
    if order == [] then Ok([])
    else
      var c := order[0];
      var script := ScriptName(instance, c);
      if c != LEGACY_ASSEMBLER && script.None? then Err(c)
      else
        var entry := if c == LEGACY_ASSEMBLER then ("legacy assembler", LegacyAssemblerName(instance))
            else (c, script.value);
        match ScriptsInOrder(order[1..], instance)
        case Err(e) => Err(e)
        case Ok(rest) => Ok([entry] + rest)
  }

  /** What a teardown deletes, as (label, worker) pairs in deletion order. */
  function TeardownWorkerScripts(components: seq<string>, instance: string): Result<seq<(string, string)>, string> {
    ScriptsInOrder(SortByKey(TeardownTargets(components), DeployOrder), instance)
  }

  /** The entry a teardown makes for one target. */
  function TeardownEntry(c: string, instance: string): (string, string) {
    if c == LEGACY_ASSEMBLER then ("legacy assembler", LegacyAssemblerName(instance))
    else (c, OrElse(ScriptName(instance, c), ""))
  }

  function Entries(order: seq<string>, instance: string): (r: seq<(string, string)>)
    ensures |r| == |order|
    ensures forall k :: 0 <= k < |order| ==> r[k] == TeardownEntry(order[k], instance)
  {
    seq(|order|, k requires 0 <= k < |order| => TeardownEntry(order[k], instance))
  }

  lemma {:induction false} ScriptsInOrderAt(order: seq<string>, instance: string)
    requires forall c :: c in order ==> Supported(c) || c == LEGACY_ASSEMBLER
    ensures ScriptsInOrder(order, instance) ==
              Ok(Entries(order, instance))
  {
    if order != [] {
      assert order[0] in order;
      SupportedHasScript(instance, order[0]);
      ScriptsInOrderAt(order[1..], instance);
      assert Entries(order, instance) == [TeardownEntry(order[0], instance)] + Entries(order[1..], instance);
    }
  }

  lemma TeardownEntries(components: seq<string>, instance: string)
    requires forall c :: c in components ==> Supported(c)
    ensures var order := SortByKey(TeardownTargets(components), DeployOrder);
      && TeardownWorkerScripts(components, instance)
           == Ok(Entries(order, instance))
      && SortedByKey(order, DeployOrder)
      && |order| == |TeardownTargets(components)|
      && (forall c :: c in order <==> c in TeardownTargets(components))
  {
    var targets := TeardownTargets(components);
    var order := SortByKey(targets, DeployOrder);
    SortByKeyCorrect(targets, DeployOrder);
    assert |order| == |multiset(order)| == |multiset(targets)| == |targets|;
    forall c ensures c in order <==> c in targets {
      assert c in multiset(order) <==> c in multiset(targets);
    }
    ScriptsInOrderAt(order, instance);
  }

  ghost predicate Deletes(r: seq<(string, string)>, s: string) {
    exists k :: 0 <= k < |r| && r[k].1 == s
  }

  lemma TeardownDeletesTargets(components: seq<string>, instance: string, s: string)
    requires forall c :: c in components ==> Supported(c)
    ensures TeardownWorkerScripts(components, instance).Ok?
    ensures Deletes(TeardownWorkerScripts(components, instance).value, s) <==>
              exists c :: c in TeardownTargets(components) && TeardownEntry(c, instance).1 == s
  {
    hide TeardownWorkerScripts, TeardownTargets, TeardownEntry, Supported, SortByKey;
    TeardownEntries(components, instance);
    var targets := TeardownTargets(components);
    var order := SortByKey(targets, DeployOrder);
    var r := TeardownWorkerScripts(components, instance).value;
    if Deletes(r, s) {
      var k :| 0 <= k < |r| && r[k].1 == s;
      assert order[k] in targets;
    }
    forall c | c in targets && TeardownEntry(c, instance).1 == s ensures Deletes(r, s) {
      var k :| 0 <= k < |order| && order[k] == c;
      assert r[k].1 == s;
    }
  }

  lemma TeardownEntryNames(c: string, instance: string)
    requires Supported(c)
    ensures c != LEGACY_ASSEMBLER && ScriptName(instance, c) == Some(TeardownEntry(c, instance).1)
  {
    SupportedHasScript(instance, c);
  }

  /** A teardown deletes the workers of the selected components, plus the legacy assembler
      when every component is selected, and nothing else. */
  lemma TeardownCoversSelection(components: seq<string>, instance: string, s: string)
    requires forall c :: c in components ==> Supported(c)
    ensures TeardownWorkerScripts(components, instance).Ok?
    ensures Deletes(TeardownWorkerScripts(components, instance).value, s) <==>
              ((exists c :: c in components && ScriptName(instance, c) == Some(s)) ||
               (FullTeardown(components) && s == LegacyAssemblerName(instance)))
  {
    hide TeardownWorkerScripts, Deletes, Supported, ScriptName, FullTeardown;
    TeardownDeletesTargets(components, instance, s);
    forall c | c in components ensures ScriptName(instance, c) == Some(TeardownEntry(c, instance).1) {
      TeardownEntryNames(c, instance);
    }
    assert TeardownEntry(LEGACY_ASSEMBLER, instance).1 == LegacyAssemblerName(instance);
    if FullTeardown(components) {
      assert LEGACY_ASSEMBLER in TeardownTargets(components);
    }
  }

  lemma OnlyTheGatewayIsLabelledSo(c: string, instance: string)
    ensures TeardownEntry(c, instance).0 == GATEWAY <==> c == GATEWAY
  {
  }

  lemma GatewayHasTheLastPlace(c: string)
    requires Supported(c) || c == LEGACY_ASSEMBLER
    requires c != GATEWAY
    ensures DeployOrder(c) < DeployOrder(GATEWAY)
  {
    SupportedHasScript(DEFAULT_INSTANCE, c);
  }

  /** The order in which workers are deployed and deleted. */
  const ORDER: seq<string> :=
    ["ripgit", "channel-whatsapp", "channel-discord", "channel-telegram", "assembler", "gateway"]

  lemma OrderIsStrict(i: nat, j: nat)
    requires i < j < |ORDER|
    ensures DeployOrder(ORDER[i]) < DeployOrder(ORDER[j])
  {
  }

  /** Each entry of a teardown is labelled with the component whose worker it names. */
  lemma TeardownLabels(components: seq<string>, instance: string, k: nat)
    requires forall c :: c in components ==> Supported(c)
    requires TeardownWorkerScripts(components, instance).Ok?
    requires k < |TeardownWorkerScripts(components, instance).value|
    ensures var entry := TeardownWorkerScripts(components, instance).value[k];
      || (entry.0 in components && ScriptName(instance, entry.0) == Some(entry.1))
      || (entry.0 == "legacy assembler" && FullTeardown(components) && entry.1 == instance + "-assembler")
  {
    hide TeardownWorkerScripts, SortByKey, Supported, ScriptName;
    TeardownEntries(components, instance);
    var order := SortByKey(TeardownTargets(components), DeployOrder);
    assert order[k] in TeardownTargets(components);
    if order[k] in components {
      TeardownEntryNames(order[k], instance);
    }
  }

  /** Nothing is deleted twice, and entries of a teardown stand in the deploy order. */
  lemma TeardownIsInOrder(components: seq<string>, instance: string)
    requires forall c :: c in components ==> Supported(c)
    requires TeardownWorkerScripts(components, instance).Ok?
    ensures var r := TeardownWorkerScripts(components, instance).value;
      && |r| == |components| + (if FullTeardown(components) then 1 else 0)
      && forall k, l :: 0 <= k < l < |r| ==> OrderOf(r[k].0) <= OrderOf(r[l].0)
  {
    hide TeardownWorkerScripts, SortByKey, Supported, ScriptName, DeployOrder, FullTeardown;
    TeardownEntries(components, instance);
    var order := SortByKey(TeardownTargets(components), DeployOrder);
    var r := TeardownWorkerScripts(components, instance).value;
    forall k, l | 0 <= k < l < |r| ensures OrderOf(r[k].0) <= OrderOf(r[l].0) {
      LabelOrder(order[k], instance);
      LabelOrder(order[l], instance);
      assert order[k] in TeardownTargets(components) && order[l] in TeardownTargets(components);
    }
  }

  function OrderOf(name: string): nat {
    DeployOrder(if name == "legacy assembler" then LEGACY_ASSEMBLER else name)
  }

  lemma LabelOrder(c: string, instance: string)
    ensures Supported(c) || c == LEGACY_ASSEMBLER ==> OrderOf(TeardownEntry(c, instance).0) == DeployOrder(c)
  {
    SupportedExactly(c);
  }

  /** Adapters, ripgit and the legacy assembler go before the gateway that binds them. */
  lemma GatewayIsDeletedLast(components: seq<string>, instance: string, k: nat, l: nat)
    requires forall c :: c in components ==> Supported(c)
    requires TeardownWorkerScripts(components, instance).Ok?
    requires k < |TeardownWorkerScripts(components, instance).value|
    requires l < |TeardownWorkerScripts(components, instance).value|
    requires TeardownWorkerScripts(components, instance).value[k].0 == GATEWAY
    requires TeardownWorkerScripts(components, instance).value[l].0 != GATEWAY
    ensures l < k
  {
    hide TeardownWorkerScripts, TeardownEntry, Supported, DeployOrder, FullTeardown, SortByKey;
    TeardownEntries(components, instance);
    var order := SortByKey(TeardownTargets(components), DeployOrder);
    OnlyTheGatewayIsLabelledSo(order[k], instance);
    OnlyTheGatewayIsLabelledSo(order[l], instance);
    assert order[l] in TeardownTargets(components);
    GatewayHasTheLastPlace(order[l]);
  }

  /** Does tearing down instance `i` delete a worker of instance `j`? */
  ghost predicate TeardownHits(i: string, components: seq<string>, j: string, component: string)
    requires forall c :: c in components ==> Supported(c)
  {
    var r := TeardownWorkerScripts(components, i);
    r.Ok? && ScriptName(j, component).Some? && Deletes(r.value, ScriptName(j, component).value)
  }

  /** `-assembler` is not a reserved suffix, so exactly one worker of another instance can be
      hit: the gateway of the instance named like the legacy worker, by a full teardown. */
  lemma TeardownIsolation(i: string, components: seq<string>, j: string, d: string)
    requires ValidInstance(i) && ValidInstance(j) && i != j
    requires forall c :: c in components ==> Supported(c)
    requires Supported(d)
    ensures TeardownHits(i, components, j, d) <==>
              FullTeardown(components) && d == GATEWAY && j == LegacyAssemblerName(i)
  {
    SupportedHasScript(j, d);
    var s := ScriptName(j, d).value;
    TeardownCoversSelection(components, i, s);
    forall c | c in components ensures ScriptName(i, c) != Some(s) {
      if ScriptName(i, c) == Some(s) {
        ScriptNamesInjective(i, c, j, d);
      }
    }
    if d != GATEWAY {
      AssemblerIsNoComponent(i, j, d);
    }
  }

  lemma AssemblerIsNoComponent(i: string, j: string, d: string)
    requires ValidInstance(i) && Supported(d) && d != GATEWAY
    ensures ScriptName(j, d) != Some(LegacyAssemblerName(i))
  {
    SupportedHasScript(j, d);
    var a := LegacyAssemblerName(i);
    var s := ScriptName(j, d).value;
    assert a[|a| - 1] == 'r' && s[|s| - 1] != 'r';
  }

  lemma AssemblerIsPlain()
    ensures ValidInstance("gsv-assembler")
  {
    var a := "gsv-assembler";
    TrimNothing(a);
    PlainName(a);
    forall k | 0 <= k < |RESERVED_SUFFIXES| ensures !EndsWith(a, RESERVED_SUFFIXES[k]) {
      SuffixesAreLong(k);
      var x := RESERVED_SUFFIXES[k];
      assert |x| <= |a| ==> a[|a| - |x|..][|x| - 1] == a[|a| - 1];
    }
  }

  lemma PlainName(name: string)
    requires forall i :: 0 <= i < |name| ==> !('A' <= name[i] <= 'Z')
    ensures ToAsciiLowercase(name) == name
  {
  }

  /** A full teardown of the default instance deletes the gateway of instance `gsv-assembler`. */
  lemma AssemblerInstanceIsHit()
    ensures ValidInstance("gsv") && ValidInstance("gsv-assembler")
    ensures TeardownHits("gsv", AVAILABLE_COMPONENTS, "gsv-assembler", GATEWAY)
  {
    hide TeardownHits, Trim, ToAsciiLowercase, ScriptName;
    var a := "gsv-assembler";
    TrimNothing("gsv");
    PlainName("gsv");
    AssemblerIsPlain();
    TeardownIsolation("gsv", AVAILABLE_COMPONENTS, a, GATEWAY);
  }
}
