/** Subject templates: parsing, rendering, stream filters, and the boot validation
    that is to leave nothing unroutable (internal/subject/subject.go). */
module Subject {
  import opened Prelude
  import opened Tokens
  import Strings

  datatype Error =
    | IllegalIdentity | BadVar | BadTemplate | BadCEType | IllegalDevice
    | NoStaticPrefix | IllegalRendered | OutsideBinding

  datatype Var = Namespace | Service | EventName | Version | Device

  /** One token of a template: fixed text, or a per-event placeholder. */
  datatype Token = Literal(text: string) | PerEvent(v: Var)

  datatype Template = Template(tokens: seq<Token>, site: string)

  datatype Identity = Identity(region: string, agency: string, agencyUnit: string, site: string)

  datatype CEType = CEType(namespace: string, service: string, event: string, version: string)

  const DEFAULT_TEMPLATE := "{namespace}.{region}.{agency}.{agency_unit}.{service}.{device_id}.{event}"

  // ---- Parsing a template ----

  function PerEventVar(name: string): Option<Var> {
    if name == "namespace" then Some(Namespace)
    else if name == "service" then Some(Service)
    else if name == "event" then Some(EventName)
    else if name == "version" then Some(Version)
    else if name == "device_id" then Some(Device)
    else None
  }

  predicate Reserved(name: string) {
    PerEventVar(name).Some? || name in {"region", "agency", "agency_unit", "site"}
  }

  function Count(s: string, c: char): nat {
    if s == "" then 0 else Count(s[..|s| - 1], c) + if s[|s| - 1] == c then 1 else 0
  }

  /** One part of a template: a literal, or exactly one whole-token placeholder. */
  function ParsePart(p: string, vars: map<string, string>): Result<Token, Error> {
    if p == "" then Err(BadTemplate)
    else if Count(p, '{') != Count(p, '}') then Err(BadTemplate)
    else if Count(p, '{') == 0 then
      if Legal(p) then Ok(Literal(p)) else Err(BadTemplate)
    else if Count(p, '{') > 1 || p[0] != '{' || p[|p| - 1] != '}' then Err(BadTemplate)
    else
      assert |p| > 1;
      var name := p[1..|p| - 1];
      if name == "" then Err(BadTemplate)
      else if PerEventVar(name).Some? then Ok(PerEvent(PerEventVar(name).value))
      else if name in vars then Ok(Literal(vars[name]))
      else Err(BadTemplate)
  }

  function ParseAll(parts: seq<string>, vars: map<string, string>): Result<seq<Token>, Error> {
    if parts == [] then Ok([])
    else
      var init := ParseAll(parts[..|parts| - 1], vars);
      var last := ParsePart(parts[|parts| - 1], vars);
      if init.Err? then init
      else if last.Err? then Err(last.error)
      else Ok(init.value + [last.value])
  }

  /** `parseTokens`. */
  method ParseTokens(raw: string, vars: map<string, string>) returns (r: Result<seq<Token>, Error>)
    ensures r == if raw == "" then Err(BadTemplate) else ParseAll(Split(raw), vars)
  {
    if raw == "" {
      return Err(BadTemplate);
    }
    var parts := Split(raw);
    var out := [];
    for i := 0 to |parts|
      invariant ParseAll(parts[..i], vars) == Ok(out)
    {
      assert parts[..i + 1][..i] == parts[..i];
      var t := ParsePart(parts[i], vars);
      if t.Err? {
        ParseAllStops(parts, i + 1, vars);
        return Err(t.error);
      }
      out := out + [t.value];
    }
    assert parts[..|parts|] == parts;
    return Ok(out);
  }

  lemma {:induction false} ParseAllStops(parts: seq<string>, i: nat, vars: map<string, string>)
    requires i <= |parts| && ParseAll(parts[..i], vars).Err?
    ensures ParseAll(parts, vars) == ParseAll(parts[..i], vars)
    decreases |parts|
  {
    if i < |parts| {
      var init := parts[..|parts| - 1];
      assert init[..i] == parts[..i];
      ParseAllStops(init, i, vars);
    } else {
      assert parts[..i] == parts;
    }
  }

  // ---- What every template satisfies ----

  ghost predicate WellFormed(t: Template) {
    && t.tokens != []
    && Legal(t.site)
    && forall i :: 0 <= i < |t.tokens| && t.tokens[i].Literal? ==> Legal(t.tokens[i].text)
  }

  lemma {:induction false} ParsedTokensAreLegal(parts: seq<string>, vars: map<string, string>)
    requires forall k :: k in vars ==> Legal(vars[k])
    requires ParseAll(parts, vars).Ok?
    ensures var tokens := ParseAll(parts, vars).value;
            |tokens| == |parts| &&
            forall i :: 0 <= i < |tokens| && tokens[i].Literal? ==> Legal(tokens[i].text)
  {
    if parts != [] {
      ParsedTokensAreLegal(parts[..|parts| - 1], vars);
    }
  }

  /** The names a template may use: {prefix} has a default, operator vars come
      next, and the identity tokens are fixed. */
  function Resolved(operatorVars: map<string, string>, id: Identity): map<string, string> {
    map["prefix" := "openits"] + operatorVars +
    map["region" := id.region, "agency" := id.agency, "agency_unit" := id.agencyUnit, "site" := id.site]
  }

  predicate LegalVars(operatorVars: map<string, string>) {
    forall k :: k in operatorVars ==> !Reserved(k) && Legal(operatorVars[k])
  }

  predicate LegalIdentity(id: Identity) {
    Legal(id.region) && Legal(id.agency) && Legal(id.agencyUnit) && Legal(id.site)
  }

  /** What `New` returns. */
  function Built(template: string, operatorVars: map<string, string>, id: Identity): Result<Template, Error> {
    if !LegalIdentity(id) then Err(IllegalIdentity)
    else if !LegalVars(operatorVars) then Err(BadVar)
    else
      var raw := if template == "" then DEFAULT_TEMPLATE else template;
      var tokens := ParseAll(Split(raw), Resolved(operatorVars, id));
      if tokens.Err? then Err(tokens.error) else Ok(Template(tokens.value, id.site))
  }

  /** The loop of `New` over the operator's vars, taken in an arbitrary order. */
  method CheckVars(operatorVars: map<string, string>) returns (ok: bool, vars: map<string, string>)
    ensures ok <==> LegalVars(operatorVars)
    ensures ok ==> vars == operatorVars
  {
    vars := map[];
    var left := operatorVars.Keys;
    while left != {}
      invariant left <= operatorVars.Keys
      invariant forall k :: k in operatorVars && k !in left ==> !Reserved(k) && Legal(operatorVars[k])
      invariant vars.Keys == operatorVars.Keys - left
      invariant forall k :: k in vars ==> vars[k] == operatorVars[k]
      decreases |left|
    {
      var k :| k in left;
      if Reserved(k) || !Legal(operatorVars[k]) {
        return false, vars;
      }
      vars := vars[k := operatorVars[k]];
      left := left - {k};
    }
    ok := true;
  }

  /** `New`. */
  method New(template: string, operatorVars: map<string, string>, id: Identity) returns (r: Result<Template, Error>)
    ensures r == Built(template, operatorVars, id)
  {
    var raw := if template == "" then DEFAULT_TEMPLATE else template;
    if !Legal(id.region) || !Legal(id.agency) || !Legal(id.agencyUnit) || !Legal(id.site) {
      return Err(IllegalIdentity);
    }
    var ok, vars := CheckVars(operatorVars);
    if !ok {
      return Err(BadVar);
    }
    if "prefix" !in vars {
      vars := vars["prefix" := "openits"];
    }
    assert vars == map["prefix" := "openits"] + operatorVars;
    vars := vars["region" := id.region]["agency" := id.agency]["agency_unit" := id.agencyUnit]["site" := id.site];
    assert vars == Resolved(operatorVars, id);
    var tokens := ParseTokens(raw, vars);
    if tokens.Err? {
      return Err(tokens.error);
    }
    return Ok(Template(tokens.value, id.site));
  }

  /** Every template `New` builds has at least one token and only legal literals. */
  lemma BuiltIsWellFormed(template: string, operatorVars: map<string, string>, id: Identity)
    requires Built(template, operatorVars, id).Ok?
    ensures WellFormed(Built(template, operatorVars, id).value)
  {
    var raw := if template == "" then DEFAULT_TEMPLATE else template;
    assert Legal("openits");
    ParsedTokensAreLegal(Split(raw), Resolved(operatorVars, id));
  }

  // ---- Rendering ----

  /** `decompose`. */
  function Decompose(ceType: string): Result<CEType, Error> {
    var parts := Split(ceType);
    if |parts| != 4 || "" in parts then Err(BadCEType)
    else Ok(CEType(parts[0], parts[1], parts[2], parts[3]))
  }

  function DeviceToken(t: Template, device: string): string {
    if device == "" then t.site else device
  }

  function TokenText(t: Template, token: Token, ce: CEType, device: string): string {
    match token
    case Literal(text) => text
    case PerEvent(Namespace) => ce.namespace
    case PerEvent(Service) => ce.service
    case PerEvent(EventName) => ce.event
    case PerEvent(Version) => ce.version
    case PerEvent(Device) => DeviceToken(t, device)
  }

  /** The tokens an event renders to. */
  function Texts(t: Template, ce: CEType, device: string): (parts: seq<string>)
    ensures |parts| == |t.tokens|
  {
    seq(|t.tokens|, i requires 0 <= i < |t.tokens| => TokenText(t, t.tokens[i], ce, device))
  }

  predicate UsesDevice(t: Template) {
    exists i :: 0 <= i < |t.tokens| && t.tokens[i] == PerEvent(Device)
  }

  /** `Render`: fails only on a malformed ce-type or an illegal device id in use. */
  function Rendered(t: Template, ceType: string, device: string): Result<string, Error> {
    var ce := Decompose(ceType);
    if ce.Err? then Err(ce.error)
    else if UsesDevice(t) && !Legal(DeviceToken(t, device)) then Err(IllegalDevice)
    else Ok(Join(Texts(t, ce.value, device)))
  }

  method Render(t: Template, ceType: string, device: string) returns (r: Result<string, Error>)
    ensures r == Rendered(t, ceType, device)
  {
    var ce := Decompose(ceType);
    if ce.Err? {
      return Err(ce.error);
    }
    var parts := [];
    for i := 0 to |t.tokens|
      invariant parts == Texts(t, ce.value, device)[..i]
      invariant forall j :: 0 <= j < i && t.tokens[j] == PerEvent(Device) ==> Legal(DeviceToken(t, device))
    {
      if t.tokens[i] == PerEvent(Device) {
        var id := if device == "" then t.site else device;
        if !Legal(id) {
          assert UsesDevice(t);
          return Err(IllegalDevice);
        }
        parts := parts + [id];
      } else {
        parts := parts + [TokenText(t, t.tokens[i], ce.value, device)];
      }
    }
    assert parts == Texts(t, ce.value, device);
    return Ok(Join(parts));
  }

  // ---- What a template says, read off its text ----

  function Braced(name: string): string {
    "{" + name + "}"
  }

  /** What a part of a template's text stands for in the subject of one event. */
  function Meaning(part: string, operatorVars: map<string, string>, id: Identity, ce: CEType, device: string): string {
    if part == Braced("namespace") then ce.namespace
    else if part == Braced("service") then ce.service
    else if part == Braced("event") then ce.event
    else if part == Braced("version") then ce.version
    else if part == Braced("device_id") then (if device == "" then id.site else device)
    else if part == Braced("region") then id.region
    else if part == Braced("agency") then id.agency
    else if part == Braced("agency_unit") then id.agencyUnit
    else if part == Braced("site") then id.site
    else if |part| > 2 && part[0] == '{' then
      var name := part[1..|part| - 1];
      if name in operatorVars then operatorVars[name] else if name == "prefix" then "openits" else part
    else part
  }

  lemma {:induction false} CountSome(s: string, c: char, i: nat)
    requires i < |s| && s[i] == c
    ensures Count(s, c) >= 1
  {
    if i < |s| - 1 {
      CountSome(s[..|s| - 1], c, i);
    }
  }

  lemma {:induction false} ParsedAt(parts: seq<string>, vars: map<string, string>, i: nat)
    requires ParseAll(parts, vars).Ok? && i < |parts|
    ensures |ParseAll(parts, vars).value| == |parts|
    ensures ParsePart(parts[i], vars) == Ok(ParseAll(parts, vars).value[i])
  {
    var n := |parts| - 1;
    if n > 0 {
      ParsedAt(parts[..n], vars, if i < n then i else n - 1);
    }
  }

  lemma {:induction false} CountConcat(a: string, b: string, c: char)
    ensures Count(a + b, c) == Count(a, c) + Count(b, c)
  {
    if b == "" {
      assert a + b == a;
    } else {
      assert (a + b)[..|a + b| - 1] == a + b[..|b| - 1];
      CountConcat(a, b[..|b| - 1], c);
    }
  }

  lemma {:induction false} CountZero(s: string, c: char)
    ensures Count(s, c) == 0 <==> c !in s
  {
    if s != "" {
      CountZero(s[..|s| - 1], c);
      assert s == s[..|s| - 1] + [s[|s| - 1]];
    }
  }

  predicate Unbraced(s: string) {
    '{' !in s && '}' !in s
  }

  lemma {:induction false} CountBraced(name: string)
    ensures Count(Braced(name), '{') == Count(name, '{') + 1 && Count(Braced(name), '}') == Count(name, '}') + 1
  {
    CountConcat("{", name, '{');
    CountConcat("{" + name, "}", '{');
    CountConcat("{", name, '}');
    CountConcat("{" + name, "}", '}');
    assert "{"[..0] == "" && "}"[..0] == "";
    assert Count("{", '{') == 1 && Count("}", '{') == 0 && Count("{", '}') == 0 && Count("}", '}') == 1;
  }

  /** Exactly which parts a template may have: legal tokens without braces, and one
      known name in braces. */
  lemma {:induction false} PartParsesExactlyWhen(part: string, vars: map<string, string>)
    ensures ParsePart(part, vars).Ok? <==>
            (Unbraced(part) && Legal(part)) ||
            (|part| > 2 && part == Braced(part[1..|part| - 1]) && Unbraced(part[1..|part| - 1]) &&
             (PerEventVar(part[1..|part| - 1]).Some? || part[1..|part| - 1] in vars))
  {
    CountZero(part, '{');
    CountZero(part, '}');
    if part != "" && part[0] == '{' && |part| > 1 {
      var name := part[1..|part| - 1];
      CountBraced(name);
      CountZero(name, '{');
      CountZero(name, '}');
      if part[|part| - 1] == '}' {
        assert part == Braced(name);
      }
    }
  }

  /** What the text of a parsed part is: a literal, or one name in braces. */
  lemma {:induction false} PartIs(part: string, vars: map<string, string>)
    requires ParsePart(part, vars).Ok?
    ensures part != "" && (part[0] == '{' ==> |part| > 2 && part == Braced(part[1..|part| - 1]))
    ensures part[0] != '{' ==> ParsePart(part, vars).value == Literal(part)
    ensures part[0] == '{' ==>
              var name := part[1..|part| - 1];
              if PerEventVar(name).Some? then ParsePart(part, vars).value == PerEvent(PerEventVar(name).value)
              else name in vars && ParsePart(part, vars).value == Literal(vars[name])
  {
    if part[0] == '{' {
      CountSome(part, '{', 0);
    }
  }

  lemma {:induction false} BracedIs(part: string, name: string)
    requires |part| > 2 && part == Braced(part[1..|part| - 1])
    ensures part == Braced(name) <==> part[1..|part| - 1] == name
  {
    if part == Braced(name) {
      assert Braced(name)[1..|Braced(name)| - 1] == name;
    }
  }

  lemma {:induction false} PerEventMeans(t: Template, part: string, operatorVars: map<string, string>, id: Identity,
                                         ce: CEType, device: string)
    requires t.site == id.site && |part| > 2 && part == Braced(part[1..|part| - 1])
    requires PerEventVar(part[1..|part| - 1]).Some?
    ensures TokenText(t, PerEvent(PerEventVar(part[1..|part| - 1]).value), ce, device) ==
            Meaning(part, operatorVars, id, ce, device)
  {
    BracedIs(part, "namespace");
    BracedIs(part, "service");
    BracedIs(part, "event");
    BracedIs(part, "version");
    BracedIs(part, "device_id");
  }

  lemma {:induction false} ConstantMeans(part: string, operatorVars: map<string, string>, id: Identity, ce: CEType,
                                         device: string)
    requires LegalVars(operatorVars) && |part| > 2 && part == Braced(part[1..|part| - 1])
    requires PerEventVar(part[1..|part| - 1]).None? && part[1..|part| - 1] in Resolved(operatorVars, id)
    ensures Resolved(operatorVars, id)[part[1..|part| - 1]] == Meaning(part, operatorVars, id, ce, device)
  {
    BracedIs(part, "namespace");
    BracedIs(part, "service");
    BracedIs(part, "event");
    BracedIs(part, "version");
    BracedIs(part, "device_id");
    BracedIs(part, "region");
    BracedIs(part, "agency");
    BracedIs(part, "agency_unit");
    BracedIs(part, "site");
  }

  lemma {:induction false} PartMeans(t: Template, part: string, operatorVars: map<string, string>, id: Identity,
                                     ce: CEType, device: string)
    requires t.site == id.site && LegalVars(operatorVars) && ParsePart(part, Resolved(operatorVars, id)).Ok?
    ensures TokenText(t, ParsePart(part, Resolved(operatorVars, id)).value, ce, device) ==
            Meaning(part, operatorVars, id, ce, device)
  {
    PartIs(part, Resolved(operatorVars, id));
    if part[0] == '{' {
      if PerEventVar(part[1..|part| - 1]).Some? {
        PerEventMeans(t, part, operatorVars, id, ce, device);
      } else {
        ConstantMeans(part, operatorVars, id, ce, device);
      }
    }
  }

  /** A rendered subject is the template's text with each placeholder replaced by what
      it names: the ce-type's parts, the device or the site, the identity, the vars. */
  lemma {:induction false} RenderFillsIn(template: string, operatorVars: map<string, string>, id: Identity,
                                         ceType: string, device: string, i: nat)
    requires Built(template, operatorVars, id).Ok?
    requires Rendered(Built(template, operatorVars, id).value, ceType, device).Ok?
    requires i < |Split(if template == "" then DEFAULT_TEMPLATE else template)|
    ensures Decompose(ceType).Ok?
    ensures var parts := Split(if template == "" then DEFAULT_TEMPLATE else template);
            var subject := Split(Rendered(Built(template, operatorVars, id).value, ceType, device).value);
            |subject| == |parts| &&
            subject[i] == Meaning(parts[i], operatorVars, id, Decompose(ceType).value, device)
  {
    var raw := if template == "" then DEFAULT_TEMPLATE else template;
    var t := Built(template, operatorVars, id).value;
    BuiltIsWellFormed(template, operatorVars, id);
    ParsedAt(Split(raw), Resolved(operatorVars, id), i);
    RenderedTokens(t, ceType, device);
    PartMeans(t, Split(raw)[i], operatorVars, id, Decompose(ceType).value, device);
  }

  /** And the ce-type's parts are the four it is written in. */
  lemma {:induction false} DecomposeIs(ns: string, service: string, event: string, version: string)
    requires DotFree(ns) && DotFree(service) && DotFree(event) && DotFree(version)
    requires "" !in [ns, service, event, version]
    ensures Decompose(Join([ns, service, event, version])) == Ok(CEType(ns, service, event, version))
  {
    SplitJoin([ns, service, event, version]);
  }

  // ---- Stream filters ----

  predicate Varies(token: Token) {
    token.PerEvent? && token.v != Namespace
  }

  /** How many leading tokens do not vary once the namespace is fixed. */
  function Fixed(tokens: seq<Token>): (n: nat)
    ensures n <= |tokens|
    ensures forall i :: 0 <= i < n ==> !Varies(tokens[i])
    ensures n < |tokens| ==> Varies(tokens[n])
  {
    if tokens == [] || Varies(tokens[0]) then 0 else 1 + Fixed(tokens[1..])
  }

  /** The fixed tokens with the namespace filled in. */
  function Prefix(t: Template, ns: string): (parts: seq<string>)
    ensures |parts| == Fixed(t.tokens)
  {
    seq(Fixed(t.tokens), i requires 0 <= i < Fixed(t.tokens) =>
      if t.tokens[i].Literal? then t.tokens[i].text else ns)
  }

  /** The filter's tokens: a trailing ">" unless nothing varies. */
  function FilterTokens(t: Template, ns: string): seq<string> {
    if Fixed(t.tokens) < |t.tokens| then Prefix(t, ns) + [">"] else Prefix(t, ns)
  }

  predicate Bindable(t: Template) {
    Fixed(t.tokens) > 0
  }

  /** `bindingFor`. */
  function Binding(t: Template, ns: string): Result<string, Error> {
    if !Bindable(t) then Err(NoStaticPrefix)
    else if Fixed(t.tokens) < |t.tokens| then Ok(Join(Prefix(t, ns)) + ".>")
    else Ok(Join(Prefix(t, ns)))
  }

  method BindingFor(t: Template, ns: string) returns (r: Result<string, Error>)
    ensures r == Binding(t, ns)
  {
    var prefix := [];
    for i := 0 to |t.tokens|
      invariant i <= Fixed(t.tokens) && prefix == Prefix(t, ns)[..i]
    {
      match t.tokens[i]
      case Literal(text) => prefix := prefix + [text];
      case PerEvent(v) =>
        if v == Namespace {
          prefix := prefix + [ns];
        } else {
          if |prefix| == 0 {
            return Err(NoStaticPrefix);
          }
          assert i == Fixed(t.tokens) && prefix == Prefix(t, ns);
          return Ok(Join(prefix) + ".>");
        }
    }
    assert prefix == Prefix(t, ns);
    if |prefix| == 0 {
      return Err(NoStaticPrefix);
    }
    return Ok(Join(prefix));
  }

  /** `withinBinding`. */
  predicate WithinBinding(subject: string, binding: string) {
    if |binding| >= 2 && binding[|binding| - 2..] == ".>"
    then binding[..|binding| - 1] <= subject
    else subject == binding
  }

  /** Some listed ce-type has this filter. */
  ghost predicate FilterOfSome(t: Template, ceTypes: seq<string>, f: string) {
    exists i :: 0 <= i < |ceTypes| && HasFilter(t, ceTypes[i], f)
  }

  predicate HasFilter(t: Template, ceType: string, f: string) {
    Decompose(ceType).Ok? && Binding(t, Decompose(ceType).value.namespace) == Ok(f)
  }

  /** The distinct namespaces of a list of ce-types. */
  ghost function Namespaces(ceTypes: seq<string>): set<string> {
    set i | 0 <= i < |ceTypes| && Decompose(ceTypes[i]).Ok? :: Decompose(ceTypes[i]).value.namespace
  }

  /** Those of some namespaces whose filter is `f`. */
  ghost function Sharers(t: Template, namespaces: set<string>, f: string): set<string> {
    set ns | ns in namespaces && Binding(t, ns) == Ok(f)
  }

  /** Each namespace has one entry: a filter occurs once for each that shares it. */
  ghost predicate OneEntryEach(t: Template, namespaces: set<string>, list: seq<string>) {
    |list| == |namespaces| && forall f :: multiset(list)[f] == |Sharers(t, namespaces, f)|
  }

  ghost predicate AllBind(t: Template, ceTypes: seq<string>) {
    forall i :: 0 <= i < |ceTypes| ==>
      Decompose(ceTypes[i]).Ok? && Binding(t, Decompose(ceTypes[i]).value.namespace).Ok?
  }

  /** `Bindings` part way: the namespaces seen, and an entry for each. */
  ghost predicate Collected(t: Template, ceTypes: seq<string>, seen: set<string>, list: seq<string>) {
    AllBind(t, ceTypes) && seen == Namespaces(ceTypes) && OneEntryEach(t, seen, list)
  }

  lemma NextNamespace(ceTypes: seq<string>, ceType: string)
    requires Decompose(ceType).Ok?
    ensures Namespaces(ceTypes + [ceType]) == Namespaces(ceTypes) + {Decompose(ceType).value.namespace}
  {
    var next := ceTypes + [ceType];
    assert next[|ceTypes|] == ceType && forall j :: 0 <= j < |ceTypes| ==> next[j] == ceTypes[j];
  }

  lemma SeenAgain(t: Template, ceTypes: seq<string>, seen: set<string>, list: seq<string>, ceType: string)
    requires Collected(t, ceTypes, seen, list) && Decompose(ceType).Ok? && Decompose(ceType).value.namespace in seen
    ensures Collected(t, ceTypes + [ceType], seen, list)
  {
    NextNamespace(ceTypes, ceType);
    var ns := Decompose(ceType).value.namespace;
    assert seen + {ns} == seen;
    var j :| 0 <= j < |ceTypes| && Decompose(ceTypes[j]).Ok? && Decompose(ceTypes[j]).value.namespace == ns;
  }

  lemma SeenFirst(t: Template, ceTypes: seq<string>, seen: set<string>, list: seq<string>, ceType: string)
    requires Collected(t, ceTypes, seen, list) && Decompose(ceType).Ok?
    requires Decompose(ceType).value.namespace !in seen && Binding(t, Decompose(ceType).value.namespace).Ok?
    ensures var ns := Decompose(ceType).value.namespace;
            Collected(t, ceTypes + [ceType], seen + {ns}, list + [Binding(t, ns).value])
  {
    NextNamespace(ceTypes, ceType);
    NextEntry(t, seen, list, Decompose(ceType).value.namespace);
  }

  lemma NextEntry(t: Template, namespaces: set<string>, list: seq<string>, ns: string)
    requires OneEntryEach(t, namespaces, list) && ns !in namespaces && Binding(t, ns).Ok?
    ensures OneEntryEach(t, namespaces + {ns}, list + [Binding(t, ns).value])
  {
    var b := Binding(t, ns).value;
    forall f ensures multiset(list + [b])[f] == |Sharers(t, namespaces + {ns}, f)| {
      if f == b {
        assert Sharers(t, namespaces + {ns}, f) == Sharers(t, namespaces, f) + {ns};
      } else {
        assert Sharers(t, namespaces + {ns}, f) == Sharers(t, namespaces, f);
      }
    }
  }

  /** `Bindings`: the filters of the distinct namespaces, one entry each, sorted. */
  method Bindings(t: Template, ceTypes: seq<string>) returns (r: Result<seq<string>, Error>)
    ensures r.Ok? <==> AllBind(t, ceTypes)
    ensures r.Ok? ==> Strings.Ascending(r.value)
    ensures r.Ok? ==> forall i :: 0 <= i < |ceTypes| ==>
              Binding(t, Decompose(ceTypes[i]).value.namespace).value in r.value
    ensures r.Ok? ==> forall f :: f in r.value ==> FilterOfSome(t, ceTypes, f)
    ensures r.Ok? ==> OneEntryEach(t, Namespaces(ceTypes), r.value)
  {
    var seen: set<string> := {};
    var out: seq<string> := [];
    assert forall f :: Sharers(t, {}, f) == {};
    for i := 0 to |ceTypes|
      invariant Collected(t, ceTypes[..i], seen, out)
    {
      assert ceTypes[..i + 1] == ceTypes[..i] + [ceTypes[i]];
      var ce := Decompose(ceTypes[i]);
      if ce.Err? {
        return Err(ce.error);
      }
      var ns := ce.value.namespace;
      if ns in seen {
        SeenAgain(t, ceTypes[..i], seen, out, ceTypes[i]);
        continue;
      }
      var b := BindingFor(t, ns);
      if b.Err? {
        return Err(b.error);
      }
      SeenFirst(t, ceTypes[..i], seen, out, ceTypes[i]);
      seen := seen + {ns};
      out := out + [b.value];
    }
    assert ceTypes[..|ceTypes|] == ceTypes;
    var sorted := Strings.Sort(out);
    assert |sorted| == |multiset(sorted)| == |out|;
    EntriesAreFilters(t, ceTypes, sorted);
    return Ok(sorted);
  }

  /** One entry for each namespace is every listed filter and nothing else. */
  lemma EntriesAreFilters(t: Template, ceTypes: seq<string>, list: seq<string>)
    requires AllBind(t, ceTypes) && OneEntryEach(t, Namespaces(ceTypes), list)
    ensures forall i :: 0 <= i < |ceTypes| ==> Binding(t, Decompose(ceTypes[i]).value.namespace).value in list
    ensures forall f :: f in list ==> FilterOfSome(t, ceTypes, f)
  {
    forall i | 0 <= i < |ceTypes| ensures Binding(t, Decompose(ceTypes[i]).value.namespace).value in list {
      var ns := Decompose(ceTypes[i]).value.namespace;
      var f := Binding(t, ns).value;
      assert ns in Sharers(t, Namespaces(ceTypes), f);
      assert f in multiset(list);
    }
    forall f | f in list ensures FilterOfSome(t, ceTypes, f) {
      var k :| 0 <= k < |list| && list[k] == f;
      var ns := EntryHasSharer(t, Namespaces(ceTypes), list, k);
      var i :| 0 <= i < |ceTypes| && Decompose(ceTypes[i]).Ok? && Decompose(ceTypes[i]).value.namespace == ns;
      assert HasFilter(t, ceTypes[i], f);
    }
  }

  // ---- Boot validation ----

  /** The checks `ValidateCETypes` makes of one ce-type and device id. */
  predicate Passes(t: Template, ceType: string, device: string) {
    var subject := Rendered(t, ceType, device);
    subject.Ok? && AllLegal(Split(subject.value)) &&
    var binding := Binding(t, Decompose(ceType).value.namespace);
    binding.Ok? && WithinBinding(subject.value, binding.value)
  }

  predicate Accepts(t: Template, ceTypes: seq<string>, devices: seq<string>) {
    forall i, j :: 0 <= i < |ceTypes| && 0 <= j < |[""] + devices| ==> Passes(t, ceTypes[i], ([""] + devices)[j])
  }

  /** The body of `ValidateCETypes`' loops for one ce-type and device id. */
  method Check(t: Template, ceType: string, device: string) returns (r: Result<(), Error>)
    ensures r.Ok? <==> Passes(t, ceType, device)
  {
    var subject := Render(t, ceType, device);
    if subject.Err? {
      return Err(subject.error);
    }
    var parts := Split(subject.value);
    for n := 0 to |parts|
      invariant forall i :: 0 <= i < n ==> Legal(parts[i])
    {
      if !Legal(parts[n]) {
        return Err(IllegalRendered);
      }
    }
    var binding := BindingFor(t, Decompose(ceType).value.namespace);
    if binding.Err? {
      return Err(binding.error);
    }
    if !WithinBinding(subject.value, binding.value) {
      return Err(OutsideBinding);
    }
    return Ok(());
  }

  method ValidateCETypes(t: Template, ceTypes: seq<string>, devices: seq<string>) returns (r: Result<(), Error>)
    ensures r.Ok? <==> Accepts(t, ceTypes, devices)
  {
    var ids := [""] + devices;
    for i := 0 to |ceTypes|
      invariant forall x, j :: 0 <= x < i && 0 <= j < |ids| ==> Passes(t, ceTypes[x], ids[j])
    {
      for j := 0 to |ids|
        invariant forall y :: 0 <= y < j ==> Passes(t, ceTypes[i], ids[y])
      {
        var checked := Check(t, ceTypes[i], ids[j]);
        if checked.Err? {
          assert !Passes(t, ceTypes[i], ids[j]);
          return checked;
        }
      }
    }
    return Ok(());
  }

  /** `ValidateBindable` probes one namespace, and that decides for every other. */
  method ValidateBindable(t: Template) returns (r: Result<(), Error>)
    ensures r.Ok? <==> forall ns :: Binding(t, ns).Ok?
    ensures r.Ok? <==> t.tokens != [] && !Varies(t.tokens[0])
  {
    var probe := BindingFor(t, "namespace-probe");
    if probe.Err? {
      assert Binding(t, "namespace-probe").Err?;
      return Err(probe.error);
    }
    return Ok(());
  }

  // ---- What validation guarantees ----

  lemma CETypeTokens(ceType: string)
    requires Decompose(ceType).Ok?
    ensures var ce := Decompose(ceType).value;
            DotFree(ce.namespace) && DotFree(ce.service) && DotFree(ce.event) && DotFree(ce.version) &&
            ce.namespace != "" && ce.service != "" && ce.event != "" && ce.version != ""
  {
    SplitIsDotFree(ceType);
    var parts := Split(ceType);
    assert parts[0] in parts && parts[1] in parts && parts[2] in parts && parts[3] in parts;
  }

  /** No rendered token contains a dot, so the subject has exactly the template's tokens. */
  lemma RenderedTokens(t: Template, ceType: string, device: string)
    requires WellFormed(t) && Rendered(t, ceType, device).Ok?
    ensures var parts := Texts(t, Decompose(ceType).value, device);
            AllDotFree(parts) && Split(Rendered(t, ceType, device).value) == parts
  {
    var ce := Decompose(ceType).value;
    var parts := Texts(t, ce, device);
    CETypeTokens(ceType);
    forall i | 0 <= i < |parts| ensures DotFree(parts[i]) {
      match t.tokens[i]
      case Literal(text) => LegalIsPlain(text);
      case PerEvent(v) => if v == Device { LegalIsPlain(DeviceToken(t, device)); }
    }
    SplitJoin(parts);
  }

  lemma PrefixTokens(t: Template, ns: string)
    requires WellFormed(t) && DotFree(ns) && Bindable(t)
    ensures AllDotFree(Prefix(t, ns)) && Prefix(t, ns) != []
    ensures Binding(t, ns).value == Join(FilterTokens(t, ns))
    ensures Split(Binding(t, ns).value) == FilterTokens(t, ns)
  {
    var pre := Prefix(t, ns);
    forall i | 0 <= i < |pre| ensures DotFree(pre[i]) {
      if t.tokens[i].Literal? { LegalIsPlain(t.tokens[i].text); }
    }
    JoinConcat(pre, [">"]);
    SplitJoin(FilterTokens(t, ns));
  }

  /** Every rendered subject starts with the filter's fixed tokens. */
  lemma PrefixOfTexts(t: Template, ce: CEType, device: string)
    ensures Texts(t, ce, device)[..Fixed(t.tokens)] == Prefix(t, ce.namespace)
  {
  }

  /** The within-binding check can never be the one that fails. */
  lemma WithinNeverFails(t: Template, ceType: string, device: string)
    requires WellFormed(t) && Rendered(t, ceType, device).Ok?
    requires Binding(t, Decompose(ceType).value.namespace).Ok?
    ensures WithinBinding(Rendered(t, ceType, device).value, Binding(t, Decompose(ceType).value.namespace).value)
  {
    var ce := Decompose(ceType).value;
    var parts, pre := Texts(t, ce, device), Prefix(t, ce.namespace);
    PrefixOfTexts(t, ce, device);
    if Fixed(t.tokens) < |t.tokens| {
      var rest := parts[Fixed(t.tokens)..];
      assert parts == pre + rest;
      JoinConcat(pre, rest);
      var binding := Join(pre) + ".>";
      assert binding[|binding| - 2..] == ".>";
      assert binding[..|binding| - 1] == Join(pre) + ".";
    } else {
      assert parts == pre;
    }
  }

  /** The broker's own matching agrees: a subject of legal tokens is captured by
      the filter of its namespace. */
  lemma CapturedByItsFilter(t: Template, ceType: string, device: string)
    requires WellFormed(t) && Bindable(t) && Rendered(t, ceType, device).Ok?
    requires AllLegal(Texts(t, Decompose(ceType).value, device))
    ensures Captures(Binding(t, Decompose(ceType).value.namespace).value, Rendered(t, ceType, device).value)
  {
    var ce := Decompose(ceType).value;
    var parts, pre := Texts(t, ce, device), Prefix(t, ce.namespace);
    CETypeTokens(ceType);
    RenderedTokens(t, ceType, device);
    PrefixTokens(t, ce.namespace);
    PrefixOfTexts(t, ce, device);
    forall i | 0 <= i < |pre| ensures pre[i] != "*" && pre[i] != ">" {
      assert pre[i] == parts[i];
      LegalIsPlain(parts[i]);
    }
    if Fixed(t.tokens) < |t.tokens| {
      MatchesPrefix(pre, parts);
    } else {
      assert parts == pre;
      MatchesExactly(pre, parts);
    }
  }

  /** Soundness of boot validation: an accepted configuration renders every listed
      ce-type for every configured device and for no device, to exactly as many
      legal tokens as the template has, captured by a filter `Bindings` returns. */
  lemma AcceptedMeansRoutable(t: Template, ceTypes: seq<string>, devices: seq<string>, i: nat, device: string)
    requires WellFormed(t) && Accepts(t, ceTypes, devices)
    requires i < |ceTypes| && (device == "" || device in devices)
    ensures Rendered(t, ceTypes[i], device).Ok?
    ensures var parts := Split(Rendered(t, ceTypes[i], device).value);
            |parts| == |t.tokens| && AllLegal(parts)
    ensures Decompose(ceTypes[i]).Ok? && Binding(t, Decompose(ceTypes[i]).value.namespace).Ok?
    ensures Captures(Binding(t, Decompose(ceTypes[i]).value.namespace).value, Rendered(t, ceTypes[i], device).value)
  {
    var ids := [""] + devices;
    assert device in ids;
    var j :| 0 <= j < |ids| && ids[j] == device;
    assert Passes(t, ceTypes[i], ids[j]);
    RenderedTokens(t, ceTypes[i], device);
    CapturedByItsFilter(t, ceTypes[i], device);
  }

  /** Some token of the template renders this part of the ce-type. */
  predicate Uses(t: Template, v: Var) {
    exists i :: 0 <= i < |t.tokens| && t.tokens[i] == PerEvent(v)
  }

  predicate LegalWhereUsed(t: Template, ce: CEType) {
    && (Uses(t, Namespace) ==> Legal(ce.namespace))
    && (Uses(t, Service) ==> Legal(ce.service))
    && (Uses(t, EventName) ==> Legal(ce.event))
    && (Uses(t, Version) ==> Legal(ce.version))
  }

  lemma LegalTexts(t: Template, ce: CEType, device: string)
    requires WellFormed(t)
    ensures AllLegal(Texts(t, ce, device)) <==>
            LegalWhereUsed(t, ce) && (Uses(t, Device) ==> Legal(DeviceToken(t, device)))
  {
    var parts := Texts(t, ce, device);
    if AllLegal(parts) {
      forall i | 0 <= i < |t.tokens| ensures Legal(TokenText(t, t.tokens[i], ce, device)) {
        assert Legal(parts[i]);
      }
    }
  }

  /** Tightness: what is refused is exactly a template that cannot be bound, a
      malformed ce-type, or an illegal text in a position the template renders. */
  lemma PassesExactlyWhen(t: Template, ceType: string, device: string)
    requires WellFormed(t)
    ensures Passes(t, ceType, device) <==>
            Bindable(t) && Decompose(ceType).Ok? && LegalWhereUsed(t, Decompose(ceType).value) &&
            (Uses(t, Device) ==> Legal(DeviceToken(t, device)))
  {
    if Decompose(ceType).Ok? {
      LegalTexts(t, Decompose(ceType).value, device);
      if Rendered(t, ceType, device).Ok? {
        RenderedTokens(t, ceType, device);
        if Bindable(t) {
          WithinNeverFails(t, ceType, device);
        }
      }
    }
  }

  // ---- Streams do not overlap ----

  lemma PlainPrefix(t: Template, ns: string)
    requires WellFormed(t) && Bindable(t)
    requires (exists i :: 0 <= i < Fixed(t.tokens) && t.tokens[i] == PerEvent(Namespace)) ==> Legal(ns)
    ensures Plain(Prefix(t, ns)) && AllDotFree(Prefix(t, ns))
  {
    var pre := Prefix(t, ns);
    forall i | 0 <= i < |pre| ensures pre[i] != "*" && pre[i] != ">" && DotFree(pre[i]) {
      LegalIsPlain(pre[i]);
    }
  }

  /** A captured subject starts with the filter's fixed tokens. */
  lemma CapturedStarts(t: Template, ns: string, subject: string)
    requires WellFormed(t) && Bindable(t) && DotFree(ns)
    requires (exists i :: 0 <= i < Fixed(t.tokens) && t.tokens[i] == PerEvent(Namespace)) ==> Legal(ns)
    requires Captures(Binding(t, ns).value, subject)
    ensures Prefix(t, ns) <= Split(subject)
  {
    PrefixTokens(t, ns);
    PlainPrefix(t, ns);
    if Fixed(t.tokens) < |t.tokens| {
      MatchesPrefix(Prefix(t, ns), Split(subject));
    } else {
      MatchesExactly(Prefix(t, ns), Split(subject));
    }
  }

  /** Any two filters of one accepted configuration are the same filter or capture
      no subject in common. */
  lemma FiltersDoNotOverlap(t: Template, ceTypes: seq<string>, devices: seq<string>, i: nat, j: nat, subject: string)
    requires WellFormed(t) && Accepts(t, ceTypes, devices) && i < |ceTypes| && j < |ceTypes|
    ensures Decompose(ceTypes[i]).Ok? && Decompose(ceTypes[j]).Ok? && Bindable(t)
    ensures var f := Binding(t, Decompose(ceTypes[i]).value.namespace).value;
            var g := Binding(t, Decompose(ceTypes[j]).value.namespace).value;
            f == g || !(Captures(f, subject) && Captures(g, subject))
  {
    assert ([""] + devices)[0] == "";
    PassesExactlyWhen(t, ceTypes[i], "");
    PassesExactlyWhen(t, ceTypes[j], "");
    CETypeTokens(ceTypes[i]);
    CETypeTokens(ceTypes[j]);
    var n, m := Decompose(ceTypes[i]).value.namespace, Decompose(ceTypes[j]).value.namespace;
    if Captures(Binding(t, n).value, subject) && Captures(Binding(t, m).value, subject) {
      CapturedStarts(t, n, subject);
      CapturedStarts(t, m, subject);
      assert Prefix(t, n) == Split(subject)[..Fixed(t.tokens)] == Prefix(t, m);
    }
  }

  // ---- Stream names ----

  /** `unicode.ToUpper`, which `strings.ToUpper` applies to each character. */
  type Casing = char -> char

  function NameChar(up: Casing, c: char): char {
    up(if c == '.' then '-' else c)
  }

  function NameOf(up: Casing, s: string): (r: string)
    ensures |r| == |s|
  {
    if s == "" then "" else [NameChar(up, s[0])] + NameOf(up, s[1..])
  }

  lemma {:induction false} NameOfConcat(up: Casing, a: string, b: string)
    ensures NameOf(up, a + b) == NameOf(up, a) + NameOf(up, b)
  {
    if a == "" {
      assert a + b == b;
    } else {
      assert (a + b)[1..] == a[1..] + b;
      NameOfConcat(up, a[1..], b);
    }
  }

  /** Equal names of two strings cut at the same place are equal part by part. */
  lemma SplitName(up: Casing, a1: string, b1: string, a2: string, b2: string)
    requires |a1| == |a2| && NameOf(up, a1 + b1) == NameOf(up, a2 + b2)
    ensures NameOf(up, a1) == NameOf(up, a2) && NameOf(up, b1) == NameOf(up, b2)
  {
    NameOfConcat(up, a1, b1);
    NameOfConcat(up, a2, b2);
    assert NameOf(up, a1) == NameOf(up, a1 + b1)[..|a1|] && NameOf(up, a2) == NameOf(up, a2 + b2)[..|a2|];
    assert NameOf(up, b1) == NameOf(up, a1 + b1)[|a1|..] && NameOf(up, b2) == NameOf(up, a2 + b2)[|a2|..];
  }

  function TrimSuffix(s: string, c: char): string {
    if s != "" && s[|s| - 1] == c then s[..|s| - 1] else s
  }

  /** `StreamNameForBinding`. */
  function StreamName(up: Casing, binding: string): string {
    NameOf(up, TrimSuffix(TrimSuffix(binding, '>'), '.'))
  }

  lemma {:induction false} JoinEnds(parts: seq<string>)
    requires parts != [] && AllLegal(parts)
    ensures Join(parts) != "" && Join(parts)[|Join(parts)| - 1] !in {'>', '.'}
  {
    assert Legal(parts[0]);
    if |parts| > 1 {
      JoinEnds(parts[1..]);
    }
  }

  lemma NameOfFilter(up: Casing, t: Template, ns: string)
    requires WellFormed(t) && Bindable(t) && Legal(ns)
    ensures StreamName(up, Binding(t, ns).value) == NameOf(up, Join(Prefix(t, ns)))
  {
    var pre := Prefix(t, ns);
    JoinEnds(pre);
    var b := Binding(t, ns).value;
    if Fixed(t.tokens) < |t.tokens| {
      assert TrimSuffix(b, '>') == Join(pre) + ".";
      assert TrimSuffix(Join(pre) + ".", '.') == Join(pre);
    }
  }

  /** `pre1` and `pre2` are the same tokens with two namespaces filled in. */
  ghost predicate Filled(tokens: seq<Token>, pre1: seq<string>, pre2: seq<string>, n1: string, n2: string) {
    && |pre1| == |pre2| == |tokens|
    && forall i :: 0 <= i < |tokens| ==>
         if tokens[i].Literal? then pre1[i] == pre2[i] == tokens[i].text else pre1[i] == n1 && pre2[i] == n2
  }

  predicate HasSlot(tokens: seq<Token>) {
    tokens != [] && (tokens[0].PerEvent? || HasSlot(tokens[1..]))
  }

  /** With namespaces of one length, equal names give equal names at the slot. */
  lemma {:induction false} JoinedSameLength(up: Casing, tokens: seq<Token>, pre1: seq<string>, pre2: seq<string>,
                                            n1: string,
                                            n2: string)
    requires Filled(tokens, pre1, pre2, n1, n2) && |n1| == |n2| && HasSlot(tokens)
    requires NameOf(up, Join(pre1)) == NameOf(up, Join(pre2))
    ensures NameOf(up, n1) == NameOf(up, n2)
  {
    if |tokens| > 1 {
      var rest1, rest2 := Join(pre1[1..]), Join(pre2[1..]);
      SplitName(up, pre1[0] + ".", rest1, pre2[0] + ".", rest2);
      SplitName(up, pre1[0], ".", pre2[0], ".");
      if tokens[0].Literal? {
        JoinedSameLength(up, tokens[1..], pre1[1..], pre2[1..], n1, n2);
      }
    }
  }

  /** A longer namespace makes a strictly longer filter, if the filter has one. */
  lemma {:induction false} JoinedLonger(tokens: seq<Token>, pre1: seq<string>, pre2: seq<string>, n1: string,
                                        n2: string)
    requires Filled(tokens, pre1, pre2, n1, n2) && |n1| < |n2|
    ensures |Join(pre1)| <= |Join(pre2)|
    ensures HasSlot(tokens) ==> |Join(pre1)| < |Join(pre2)|
  {
    if tokens != [] {
      assert if tokens[0].Literal? then pre1[0] == pre2[0] else pre1[0] == n1 && pre2[0] == n2;
      if |tokens| == 1 {
        assert !HasSlot(tokens[1..]);
        assert Join(pre1) == pre1[0] && Join(pre2) == pre2[0];
      } else {
        JoinedLonger(tokens[1..], pre1[1..], pre2[1..], n1, n2);
        assert |Join(pre1)| == |pre1[0]| + 1 + |Join(pre1[1..])|;
        assert |Join(pre2)| == |pre2[0]| + 1 + |Join(pre2[1..])|;
      }
    }
  }

  /** The filter's fixed tokens include the namespace. */
  predicate NamespaceInFilter(t: Template) {
    HasSlot(t.tokens[..Fixed(t.tokens)])
  }

  lemma {:induction false} NoSlotSameText(tokens: seq<Token>, pre1: seq<string>, pre2: seq<string>, n1: string,
                                          n2: string)
    requires Filled(tokens, pre1, pre2, n1, n2) && !HasSlot(tokens)
    ensures pre1 == pre2
  {
    if tokens != [] {
      NoSlotSameText(tokens[1..], pre1[1..], pre2[1..], n1, n2);
      assert pre1 == [pre1[0]] + pre1[1..] && pre2 == [pre2[0]] + pre2[1..];
    }
  }

  lemma {:induction false} SlotTells(tokens: seq<Token>, pre1: seq<string>, pre2: seq<string>, n1: string, n2: string)
    requires Filled(tokens, pre1, pre2, n1, n2) && HasSlot(tokens) && pre1 == pre2
    ensures n1 == n2
  {
    if tokens[0].Literal? {
      SlotTells(tokens[1..], pre1[1..], pre2[1..], n1, n2);
    }
  }

  /** Two namespaces of one template have one filter exactly when they are one
      namespace or no fixed token holds the namespace. */
  lemma {:induction false} FiltersEqualExactlyWhen(t: Template, n1: string, n2: string)
    requires WellFormed(t) && Bindable(t) && DotFree(n1) && DotFree(n2)
    ensures Binding(t, n1) == Binding(t, n2) <==> n1 == n2 || !NamespaceInFilter(t)
  {
    var pre1, pre2 := Prefix(t, n1), Prefix(t, n2);
    var tokens := t.tokens[..Fixed(t.tokens)];
    assert Filled(tokens, pre1, pre2, n1, n2);
    PrefixTokens(t, n1);
    PrefixTokens(t, n2);
    if Binding(t, n1) == Binding(t, n2) {
      assert FilterTokens(t, n1)[..|pre1|] == pre1 && FilterTokens(t, n2)[..|pre2|] == pre2;
      if NamespaceInFilter(t) {
        SlotTells(tokens, pre1, pre2, n1, n2);
      }
    }
    if !NamespaceInFilter(t) {
      NoSlotSameText(tokens, pre1, pre2, n1, n2);
    }
  }

  /** A filter is listed twice exactly when no fixed token holds the namespace and
      there is more than one namespace: then all of them share the one filter. */
  lemma {:induction false} ListRepeatsExactlyWhen(t: Template, namespaces: set<string>, list: seq<string>)
    requires WellFormed(t) && Bindable(t) && forall ns :: ns in namespaces ==> DotFree(ns)
    requires OneEntryEach(t, namespaces, list)
    ensures !Distinct(list) <==> !NamespaceInFilter(t) && |namespaces| >= 2
    ensures !NamespaceInFilter(t) ==> forall i, j :: 0 <= i < |list| && 0 <= j < |list| ==> list[i] == list[j]
  {
    if !Distinct(list) {
      RepeatIsShared(t, namespaces, list);
    }
    if !NamespaceInFilter(t) {
      forall i, j | 0 <= i < |list| && 0 <= j < |list| ensures list[i] == list[j] {
        var n1 := EntryHasSharer(t, namespaces, list, i);
        var n2 := EntryHasSharer(t, namespaces, list, j);
        FiltersEqualExactlyWhen(t, n1, n2);
      }
      if |namespaces| >= 2 {
        assert list[0] == list[1];
      }
    }
  }

  lemma {:induction false} EntryHasSharer(t: Template, namespaces: set<string>, list: seq<string>, i: nat)
    returns (ns: string)
    requires OneEntryEach(t, namespaces, list) && i < |list|
    ensures ns in namespaces && Binding(t, ns) == Ok(list[i])
  {
    assert list[i] in multiset(list);
    assert Sharers(t, namespaces, list[i]) != {};
    ns :| ns in Sharers(t, namespaces, list[i]);
  }

  lemma {:induction false} RepeatIsShared(t: Template, namespaces: set<string>, list: seq<string>)
    requires WellFormed(t) && Bindable(t) && forall ns :: ns in namespaces ==> DotFree(ns)
    requires OneEntryEach(t, namespaces, list) && !Distinct(list)
    ensures !NamespaceInFilter(t) && |namespaces| >= 2
  {
    var i, j :| 0 <= i < j < |list| && list[i] == list[j];
    Strings.DuplicateCount(list, i, j);
    var sharers := Sharers(t, namespaces, list[i]);
    var n1 := EntryHasSharer(t, namespaces, list, i);
    assert |sharers - {n1}| >= 1;
    var n2 :| n2 in sharers - {n1};
    FiltersEqualExactlyWhen(t, n1, n2);
  }

  /** One such list: under a template whose only fixed token is literal, the
      namespaces of two ce-types have two entries, both the same filter. */
  lemma {:induction false} RepeatingList(site: string, n1: string, n2: string, list: seq<string>)
    requires Legal(site) && Legal(n1) && Legal(n2) && n1 != n2
    requires var t := Template([Literal(site), PerEvent(Service)], site);
             OneEntryEach(t, Namespaces([Join([n1, "s", "e", "v"]), Join([n2, "s", "e", "v"])]), list)
    ensures list == [site + ".>", site + ".>"]
  {
    var t := Template([Literal(site), PerEvent(Service)], site);
    var ceTypes := [Join([n1, "s", "e", "v"]), Join([n2, "s", "e", "v"])];
    LegalIsPlain(n1);
    LegalIsPlain(n2);
    DecomposeIs(n1, "s", "e", "v");
    DecomposeIs(n2, "s", "e", "v");
    assert Decompose(ceTypes[0]).value.namespace == n1 && Decompose(ceTypes[1]).value.namespace == n2;
    assert Namespaces(ceTypes) == {n1, n2};
    OneFixedToken(site, n1);
    OneFixedToken(site, n2);
    assert |list| == |{n1, n2}| == 2;
    var a := EntryHasSharer(t, {n1, n2}, list, 0);
    var b := EntryHasSharer(t, {n1, n2}, list, 1);
  }

  lemma {:induction false} OneFixedToken(site: string, ns: string)
    ensures Binding(Template([Literal(site), PerEvent(Service)], site), ns) == Ok(site + ".>")
  {
    var tokens := [Literal(site), PerEvent(Service)];
    assert tokens[1..] == [PerEvent(Service)];
    assert Fixed(tokens[1..]) == 0;
    assert Fixed(tokens) == 1;
    assert Prefix(Template(tokens, site), ns) == [site];
  }

  /** Exactly when two namespaces of one template share a derived stream name,
      however characters upper-case: the filter does not hold the namespace, or the
      two differ only in letter case. */
  lemma StreamNamesCollideExactlyWhen(up: Casing, t: Template, n1: string, n2: string)
    requires WellFormed(t) && Bindable(t) && Legal(n1) && Legal(n2)
    ensures StreamName(up, Binding(t, n1).value) == StreamName(up, Binding(t, n2).value) <==>
            !NamespaceInFilter(t) || NameOf(up, n1) == NameOf(up, n2)
  {
    var pre1, pre2 := Prefix(t, n1), Prefix(t, n2);
    var tokens := t.tokens[..Fixed(t.tokens)];
    assert Filled(tokens, pre1, pre2, n1, n2) && Filled(tokens, pre2, pre1, n2, n1);
    NameOfFilter(up, t, n1);
    NameOfFilter(up, t, n2);
    if !HasSlot(tokens) {
      NoSlotSameText(tokens, pre1, pre2, n1, n2);
    } else if NameOf(up, n1) == NameOf(up, n2) {
      SameNames(up, tokens, pre1, pre2, n1, n2);
    } else if |n1| < |n2| {
      JoinedLonger(tokens, pre1, pre2, n1, n2);
    } else if |n2| < |n1| {
      JoinedLonger(tokens, pre2, pre1, n2, n1);
    } else if NameOf(up, Join(pre1)) == NameOf(up, Join(pre2)) {
      JoinedSameLength(up, tokens, pre1, pre2, n1, n2);
    }
  }

  lemma {:induction false} SameNames(up: Casing, tokens: seq<Token>, pre1: seq<string>, pre2: seq<string>,
                                     n1: string, n2: string)
    requires Filled(tokens, pre1, pre2, n1, n2) && NameOf(up, n1) == NameOf(up, n2)
    ensures NameOf(up, Join(pre1)) == NameOf(up, Join(pre2))
  {
    if |tokens| > 1 {
      SameNames(up, tokens[1..], pre1[1..], pre2[1..], n1, n2);
      NameOfConcat(up, pre1[0] + ".", Join(pre1[1..]));
      NameOfConcat(up, pre2[0] + ".", Join(pre2[1..]));
      NameOfConcat(up, pre1[0], ".");
      NameOfConcat(up, pre2[0], ".");
    }
  }

  /** Exactly when two different filters of one template share a derived name: the
      filter holds the namespace, and the two namespaces differ in letter case only. */
  lemma {:induction false} FiltersShareNameExactlyWhen(up: Casing, t: Template, n1: string, n2: string)
    requires WellFormed(t) && Bindable(t) && Legal(n1) && Legal(n2)
    ensures Binding(t, n1) != Binding(t, n2) &&
            StreamName(up, Binding(t, n1).value) == StreamName(up, Binding(t, n2).value) <==>
            NamespaceInFilter(t) && n1 != n2 && NameOf(up, n1) == NameOf(up, n2)
  {
    LegalIsPlain(n1);
    LegalIsPlain(n2);
    FiltersEqualExactlyWhen(t, n1, n2);
    StreamNamesCollideExactlyWhen(up, t, n1, n2);
  }

  /** Upper-casing merges no character of one string with another one of the other. */
  ghost predicate TellsApart(up: Casing, a: string, b: string) {
    forall x, y :: x in a && y in b && up(x) == up(y) ==> x == y
  }

  lemma {:induction false} ToldNames(up: Casing, a: string, b: string)
    requires TellsApart(up, a, b) && DotFree(a) && DotFree(b)
    requires NameOf(up, a) == NameOf(up, b)
    ensures a == b
  {
    if a != "" {
      assert NameOf(up, a)[0] == NameOf(up, b)[0] && NameOf(up, a)[1..] == NameOf(up, b)[1..];
      ToldNames(up, a[1..], b[1..]);
      assert a == [a[0]] + a[1..] && b == [b[0]] + b[1..];
    }
  }

  predicate LowercaseAscii(s: string) {
    forall c :: c in s ==> c < '\U{0080}' && !('A' <= c <= 'Z')
  }

  /** Of ASCII, upper-casing changes a to z alone. */
  ghost predicate UppercasesAscii(up: Casing) {
    forall c :: c < '\U{0080}' ==>
      up(c) == if 'a' <= c <= 'z' then (c as int - 'a' as int + 'A' as int) as char else c
  }

  lemma {:induction false} LowercaseIsTold(up: Casing, a: string, b: string)
    requires UppercasesAscii(up) && LowercaseAscii(a) && LowercaseAscii(b)
    ensures TellsApart(up, a, b)
  {
  }

  /** So for lowercase ASCII namespaces, distinct filters have distinct stream names. */
  lemma {:induction false} LowercaseNamesAreDistinct(up: Casing, t: Template, n1: string, n2: string)
    requires WellFormed(t) && Bindable(t) && Legal(n1) && Legal(n2)
    requires UppercasesAscii(up) && LowercaseAscii(n1) && LowercaseAscii(n2)
    requires StreamName(up, Binding(t, n1).value) == StreamName(up, Binding(t, n2).value)
    ensures Binding(t, n1) == Binding(t, n2)
  {
    FiltersShareNameExactlyWhen(up, t, n1, n2);
    if NameOf(up, n1) == NameOf(up, n2) {
      LegalIsPlain(n1);
      LegalIsPlain(n2);
      LowercaseIsTold(up, n1, n2);
      ToldNames(up, n1, n2);
    }
  }

  /** Beyond ASCII it fails: "i" and the dotless "ı" are both lowercase and both "I"
      in upper case, so wherever the filter holds the namespace they share a name. */
  lemma {:induction false} DotlessI(up: Casing, t: Template)
    requires WellFormed(t) && Bindable(t) && NamespaceInFilter(t)
    requires up('i') == up('\U{0131}')
    ensures Binding(t, "i") != Binding(t, "\U{0131}")
    ensures StreamName(up, Binding(t, "i").value) == StreamName(up, Binding(t, "\U{0131}").value)
  {
    var dotless := "\U{0131}";
    assert dotless[0] == '\U{0131}' && dotless[1..] == "" && "i"[1..] == "";
    assert NameOf(up, "i") == [up('i')] && NameOf(up, dotless) == [up('\U{0131}')];
    FiltersShareNameExactlyWhen(up, t, "i", dotless);
  }
}
