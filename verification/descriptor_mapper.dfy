/** Translating connector metadata into a descriptor, with a shared report of everything that cannot be translated. */
module DescriptorMapper {
  import opened Wrappers
  import opened Sequences

  datatype Kind = TextKind | NumberKind | BooleanKind | NullKind | OtherKind

  /** A JSON value: its `typeof` (null apart), its `String(...)`, and its `value` member if it is an object with one. */
  datatype Value = Value(kind: Kind, text: string, inner: Option<Value>)

  datatype Property = Property(
    declared: Option<string>,
    description: Option<string>,
    choices: Option<seq<Value>>,
    standard: Option<Value>,
    placeholder: Option<string>)

  datatype Entry = Entry(key: string, property: Property)

  /** A missing schema, or one without properties, has no entries. */
  datatype Schema = Schema(required: seq<string>, entries: seq<Entry>)

  datatype AuthField = AuthField(key: Option<string>, name: Option<string>, caption: Option<string>, required: bool,
                                 property: Property)

  datatype Mapping = Mapping(key: string, value: Value)

  datatype Resource = Resource(id: string, operations: seq<string>, mappings: Option<seq<Mapping>>, schema: Schema)

  datatype Authentication = Authentication(
    authType: Option<string>,
    methods: Option<seq<string>>,
    fields: seq<AuthField>,
    provider: Option<string>,
    scopes: Option<seq<string>>,
    required: Option<bool>,
    envOnly: Option<bool>)

  datatype Metadata = Metadata(
    scheme: string,
    provider: Option<string>,
    authentication: Option<Authentication>,
    schema: Schema,
    resources: seq<Resource>)

  datatype FieldType = Text | List | Number | Boolean | Select

  datatype ConfigField = ConfigField(
    key: string,
    caption: string,
    fieldType: FieldType,
    required: bool,
    hint: Option<string>,
    placeholder: Option<string>,
    options: Option<seq<string>>,
    standard: Option<Value>)

  /** Absent operations and config fields are empty lists. */
  datatype MappedResource = MappedResource(operations: seq<string>, mappings: Option<seq<Mapping>>,
                                           configFields: seq<ConfigField>)

  datatype AuthKind = NoAuth | OAuth2 | OAuth2App | Basic | Token

  /** Absent credential fields are an empty list. */
  datatype AuthSubstrate = AuthSubstrate(
    kind: AuthKind,
    provider: Option<string>,
    scopes: Option<seq<string>>,
    envOnly: Option<bool>,
    fields: seq<ConfigField>)

  datatype Descriptor = Descriptor(auth: AuthSubstrate, configFields: seq<ConfigField>, resources: seq<MappedResource>)

  datatype Reason =
    | MissingKey
    | BadType(declared: Option<string>)
    | BadDefault
    | BadOperation(name: string)
    | BadMapping(kind: Kind)

  /** One entry of the report; a path is the list of its parts. */
  datatype Unsupported = Unsupported(path: seq<string>, reason: Reason)

  /** Operations on texts taken as given: the test for credential-like keys, the default label of a key, lower case. */
  datatype Texts = Texts(credential: string -> bool, humanize: string -> string, lower: string -> string)

  class Report {
    var entries: seq<Unsupported>

    constructor ()
      ensures entries == []
    {
      entries := [];
    }

    method Push(entry: Unsupported)
      modifies this
      ensures entries == old(entries) + [entry]
    {
      entries := entries + [entry];
    }
  }

  // ----- one field -----

  function FieldTypeOf(p: Property): Option<FieldType> {
    if p.choices.Some? then Some(Select)
    else if p.declared.None? then None
    else if p.declared.value in ["string", "text", "password"] then Some(Text)
    else if p.declared.value == "array" then Some(List)
    else if p.declared.value in ["integer", "number"] then Some(Number)
    else if p.declared.value == "boolean" then Some(Boolean)
    else None
  }

  predicate Representable(p: Property) {
    FieldTypeOf(p).Some?
  }

  predicate SupportedDefault(p: Property) {
    p.standard.None? || p.standard.value.kind in [TextKind, NumberKind, BooleanKind]
  }

  function Shown(choices: seq<Value>): seq<string> {
    seq(|choices|, i requires 0 <= i < |choices| => choices[i].text)
  }

  function FieldOf(key: string, p: Property, required: bool, caption: string): ConfigField
    requires Representable(p)
  {
    ConfigField(key, caption, FieldTypeOf(p).value, required, p.description, p.placeholder,
                if p.choices.Some? then Some(Shown(p.choices.value)) else None,
                if SupportedDefault(p) then p.standard else None)
  }

  function Fields(key: string, p: Property, required: bool, caption: string): seq<ConfigField> {
    if Representable(p) then [FieldOf(key, p, required, caption)] else []
  }

  function FieldReports(p: Property, path: seq<string>): seq<Unsupported> {
    if !Representable(p) then [Unsupported(path, BadType(p.declared))]
    else if !SupportedDefault(p) then [Unsupported(path + ["default"], BadDefault)]
    else []
  }

  /** `mapConfigField`. */
  method MapConfigField(key: string, p: Property, required: bool, path: seq<string>, caption: string, report: Report)
    returns (fields: seq<ConfigField>)
    modifies report
    ensures fields == Fields(key, p, required, caption)
    ensures report.entries == old(report.entries) + FieldReports(p, path)
  {
    var fieldType := FieldTypeOf(p);
    if fieldType.None? {
      report.Push(Unsupported(path, BadType(p.declared)));
      return [];
    }
    var field := ConfigField(key, caption, fieldType.value, required, p.description, p.placeholder, None, None);
    if fieldType.value == Select {
      field := field.(options := Some(Shown(p.choices.value)));
    }
    if SupportedDefault(p) {
      field := field.(standard := p.standard);
    } else {
      report.Push(Unsupported(path + ["default"], BadDefault));
    }
    fields := [field];
  }

  // ----- the properties of a schema -----

  function PropertyPath(prefix: seq<string>, key: string): seq<string> {
    prefix + ["properties", key]
  }

  function EntryFields(texts: Texts, schema: Schema, e: Entry, skip: string -> bool): seq<ConfigField> {
    if skip(e.key) then [] else Fields(e.key, e.property, e.key in schema.required, texts.humanize(e.key))
  }

  function EntryReports(e: Entry, skip: string -> bool, prefix: seq<string>): seq<Unsupported> {
    if skip(e.key) then [] else FieldReports(e.property, PropertyPath(prefix, e.key))
  }

  function SchemaFields(texts: Texts, schema: Schema, n: nat, skip: string -> bool): seq<ConfigField>
    requires n <= |schema.entries|
  {
    if n == 0 then []
    else SchemaFields(texts, schema, n - 1, skip) + EntryFields(texts, schema, schema.entries[n - 1], skip)
  }

  /** The reports about the first `n` elements, in order. */
  function Gather<X>(f: X -> seq<Unsupported>, s: seq<X>, n: nat): seq<Unsupported>
    requires n <= |s|
  {
    if n == 0 then [] else Gather(f, s, n - 1) + f(s[n - 1])
  }

  function Reporter(skip: string -> bool, prefix: seq<string>): Entry -> seq<Unsupported> {
    e => EntryReports(e, skip, prefix)
  }

  function SchemaReports(schema: Schema, skip: string -> bool, prefix: seq<string>): seq<Unsupported> {
    Gather(Reporter(skip, prefix), schema.entries, |schema.entries|)
  }

  /** `mapSchemaFields`, and the loop of `extractImplicitCredentialFields`. */
  method MapSchemaFields(texts: Texts, schema: Schema, prefix: seq<string>, skip: string -> bool, report: Report)
    returns (fields: seq<ConfigField>)
    modifies report
    ensures fields == SchemaFields(texts, schema, |schema.entries|, skip)
    ensures report.entries == old(report.entries) + SchemaReports(schema, skip, prefix)
  {
    fields := [];
    for i := 0 to |schema.entries|
      invariant fields == SchemaFields(texts, schema, i, skip)
      invariant report.entries == old(report.entries) + Gather(Reporter(skip, prefix), schema.entries, i)
    {
      var e := schema.entries[i];
      if !skip(e.key) {
        var mapped := MapConfigField(e.key, e.property, e.key in schema.required, PropertyPath(prefix, e.key),
                                     texts.humanize(e.key), report);
        fields := fields + mapped;
      }
    }
  }

  // ----- credentials -----

  function KeyOf(f: AuthField): Option<string> {
    if f.key.Some? then f.key else f.name
  }

  predicate HasKey(f: AuthField) {
    KeyOf(f).Some? && KeyOf(f).value != ""
  }

  /** `normalizeOptions`. */
  function Normalized(p: Property): Property {
    if p.choices.None? then p
    else
      var choices := p.choices.value;
      p.(choices := Some(seq(|choices|, i requires 0 <= i < |choices| =>
        if choices[i].inner.Some? then choices[i].inner.value else choices[i])))
  }

  function LabelOf(texts: Texts, f: AuthField): string
    requires HasKey(f)
  {
    if f.caption.Some? then f.caption.value else texts.humanize(KeyOf(f).value)
  }

  function ExplicitFields(texts: Texts, raw: seq<AuthField>): seq<ConfigField> {
    if raw == [] then []
    else
      var f := raw[|raw| - 1];
      ExplicitFields(texts, raw[..|raw| - 1]) +
      if HasKey(f) then Fields(KeyOf(f).value, Normalized(f.property), f.required, LabelOf(texts, f)) else []
  }

  function ExplicitReports(raw: seq<AuthField>): seq<Unsupported> {
    if raw == [] then []
    else
      var f := raw[|raw| - 1];
      ExplicitReports(raw[..|raw| - 1]) +
      if HasKey(f) then FieldReports(Normalized(f.property), ["authentication", "fields", KeyOf(f).value])
      else [Unsupported(["authentication", "fields"], MissingKey)]
  }

  /** `mapAuthFields`. */
  method MapAuthFields(texts: Texts, raw: seq<AuthField>, report: Report) returns (fields: seq<ConfigField>)
    modifies report
    ensures fields == ExplicitFields(texts, raw)
    ensures report.entries == old(report.entries) + ExplicitReports(raw)
  {
    fields := [];
    for i := 0 to |raw|
      invariant fields == ExplicitFields(texts, raw[..i])
      invariant report.entries == old(report.entries) + ExplicitReports(raw[..i])
    {
      assert raw[..i + 1][..i] == raw[..i];
      var f := raw[i];
      if !HasKey(f) {
        report.Push(Unsupported(["authentication", "fields"], MissingKey));
      } else {
        var key := KeyOf(f).value;
        var mapped := MapConfigField(key, Normalized(f.property), f.required, ["authentication", "fields", key],
                                     LabelOf(texts, f), report);
        fields := fields + mapped;
      }
    }
    assert raw[..|raw|] == raw;
  }

  function RawFields(m: Metadata): seq<AuthField> {
    if m.authentication.Some? then m.authentication.value.fields else []
  }

  /** Credentials are looked for in the configuration schema only when no explicit field could be mapped. */
  predicate Implicit(texts: Texts, m: Metadata) {
    ExplicitFields(texts, RawFields(m)) == []
  }

  function NotCredential(texts: Texts): string -> bool {
    key => !texts.credential(key)
  }

  const ConfigPrefix := ["configuration_schema"]

  function Credentials(texts: Texts, m: Metadata): seq<ConfigField> {
    if Implicit(texts, m) then SchemaFields(texts, m.schema, |m.schema.entries|, NotCredential(texts))
    else ExplicitFields(texts, RawFields(m))
  }

  function CredentialReports(texts: Texts, m: Metadata): seq<Unsupported> {
    ExplicitReports(RawFields(m)) +
    if Implicit(texts, m) then SchemaReports(m.schema, NotCredential(texts), ConfigPrefix) else []
  }

  function Keys(fields: seq<ConfigField>): set<string> {
    set f | f in fields :: f.key
  }

  function Methods(m: Metadata): seq<string> {
    if m.authentication.None? then []
    else if m.authentication.value.methods.Some? then m.authentication.value.methods.value
    else if m.authentication.value.authType.Some? then [m.authentication.value.authType.value]
    else []
  }

  predicate NamesOAuth2App(name: string) {
    Includes(name, "oauth2_client") || name == "oauth2_app"
  }

  predicate NamesBasic(name: string) {
    Includes(name, "basic") || name == "winrm"
  }

  predicate NamesKey(name: string) {
    Includes(name, "api_key") || Includes(name, "api_token")
  }

  /** `inferAuthKind`, on lower-case methods. */
  function InferAuthKind(methods: seq<string>, fields: nat, required: Option<bool>): AuthKind {
    if required == Some(false) && "none" in methods && fields == 0 then NoAuth
    else if exists x | x in methods :: NamesOAuth2App(x) then OAuth2App
    else if "oauth2" in methods then OAuth2
    else if exists x | x in methods :: NamesBasic(x) then Basic
    else if exists x | x in methods :: NamesKey(x) then if fields <= 1 then Token else Basic
    else if fields == 0 then NoAuth
    else if fields == 1 then Token else Basic
  }

  predicate Recognised(name: string) {
    NamesOAuth2App(name) || name == "oauth2" || NamesBasic(name) || NamesKey(name)
  }

  /**
   No authentication is inferred exactly when nothing is asked for and no method says otherwise or it was declined.
   */
  lemma NoAuthIff(methods: seq<string>, fields: nat, required: Option<bool>)
    ensures InferAuthKind(methods, fields, required) == NoAuth <==>
            fields == 0 && ((required == Some(false) && "none" in methods) || forall x | x in methods :: !Recognised(x))
    ensures InferAuthKind(methods, fields, required) == Token ==> fields <= 1
  {
  }

  function LowerAll(texts: Texts, methods: seq<string>): (r: seq<string>) {
    seq(|methods|, i requires 0 <= i < |methods| => texts.lower(methods[i]))
  }

  function KindOf(texts: Texts, m: Metadata): AuthKind {
    InferAuthKind(LowerAll(texts, Methods(m)), |Credentials(texts, m)|,
                  if m.authentication.Some? then m.authentication.value.required else None)
  }

  function ProviderOf(texts: Texts, m: Metadata): Option<string> {
    if m.authentication.Some? && m.authentication.value.provider.Some? then m.authentication.value.provider
    else if KindOf(texts, m) != OAuth2 && KindOf(texts, m) != OAuth2App then None
    else if Methods(m) != [] then Some(Methods(m)[0])
    else if m.provider.Some? then m.provider
    else Some(m.scheme)
  }

  function AuthOf(texts: Texts, m: Metadata): AuthSubstrate {
    AuthSubstrate(KindOf(texts, m), ProviderOf(texts, m),
                  if m.authentication.Some? then m.authentication.value.scopes else None,
                  if m.authentication.Some? then m.authentication.value.envOnly else None,
                  Credentials(texts, m))
  }

  /**
   Kind, provider and fields fit: without authentication there are no fields, a token has at most one, and OAuth names a
   provider. An OAuth kind needs a method, so a provider that is not given is always the first method.
   */
  lemma AuthFits(texts: Texts, m: Metadata)
    ensures var auth := AuthOf(texts, m);
            && (auth.kind == NoAuth ==> auth.fields == [])
            && (auth.kind == Token ==> |auth.fields| <= 1)
            && (auth.kind == OAuth2 || auth.kind == OAuth2App ==> auth.provider.Some?)
            && (auth.kind == OAuth2 || auth.kind == OAuth2App ==>
                  && Methods(m) != []
                  && (auth.provider.value == Methods(m)[0] || auth.provider == m.authentication.value.provider))
            && (m.authentication.None? ==> auth.kind in {NoAuth, Token, Basic} && auth.provider.None?)
  {
    NoAuthIff(LowerAll(texts, Methods(m)), |Credentials(texts, m)|,
              if m.authentication.Some? then m.authentication.value.required else None);
    assert Methods(m) == [] ==> LowerAll(texts, Methods(m)) == [];
  }

  /** The fields of the substrate, explicit or implicit, and their keys. */
  method MapCredentials(texts: Texts, m: Metadata, report: Report)
      returns (fields: seq<ConfigField>, credentialKeys: set<string>)
    modifies report
    ensures fields == Credentials(texts, m) && credentialKeys == Keys(fields)
    ensures report.entries == old(report.entries) + CredentialReports(texts, m)
  {
    fields := MapAuthFields(texts, RawFields(m), report);
    if fields == [] {
      fields := MapSchemaFields(texts, m.schema, ConfigPrefix, NotCredential(texts), report);
    }
    credentialKeys := CollectKeys(fields);
  }

  /** `mapAuthSubstrate`: the substrate, and the keys of its fields. */
  method MapAuthSubstrate(texts: Texts, m: Metadata, report: Report)
      returns (auth: AuthSubstrate, credentialKeys: set<string>)
    modifies report
    ensures auth == AuthOf(texts, m) && credentialKeys == Keys(auth.fields)
    ensures report.entries == old(report.entries) + CredentialReports(texts, m)
  {
    var fields: seq<ConfigField>;
    fields, credentialKeys := MapCredentials(texts, m, report);
    var raw := m.authentication;
    var methods := Methods(m);
    var kind := InferAuthKind(LowerAll(texts, methods), |fields|, if raw.Some? then raw.value.required else None);
    auth := AuthSubstrate(kind, None, None, None, fields);
    if raw.Some? && raw.value.provider.Some? {
      auth := auth.(provider := raw.value.provider);
    } else if kind == OAuth2 || kind == OAuth2App {
      var otherwise := if m.provider.Some? then m.provider.value else m.scheme;
      auth := auth.(provider := Some(if methods != [] then methods[0] else otherwise));
    }
    if raw.Some? {
      auth := auth.(scopes := raw.value.scopes, envOnly := raw.value.envOnly);
    }
  }

  method CollectKeys(fields: seq<ConfigField>) returns (keys: set<string>)
    ensures keys == Keys(fields)
  {
    keys := {};
    for i := 0 to |fields|
      invariant keys == Keys(fields[..i])
    {
      assert fields[..i + 1] == fields[..i] + [fields[i]];
      keys := keys + {fields[i].key};
    }
    assert fields[..|fields|] == fields;
  }

  // ----- resources -----

  predicate CoreOperation(operation: string) {
    operation in ["extract", "transform", "load", "sync_to_source"]
  }

  predicate OtherOperation(operation: string) {
    !CoreOperation(operation)
  }

  function OperationReports(id: string, operations: seq<string>): (r: seq<Unsupported>)
    ensures |r| == |operations|
    ensures forall i | 0 <= i < |r| ::
              r[i] == Unsupported(["resources", id, "operations", operations[i]], BadOperation(operations[i]))
  {
    seq(|operations|, i requires 0 <= i < |operations| =>
      Unsupported(["resources", id, "operations", operations[i]], BadOperation(operations[i])))
  }

  method MapOperations(id: string, operations: seq<string>, report: Report) returns (mapped: seq<string>)
    modifies report
    ensures mapped == Filter(CoreOperation, operations)
    ensures report.entries == old(report.entries) + OperationReports(id, Filter(OtherOperation, operations))
  {
    mapped := [];
    for i := 0 to |operations|
      invariant mapped == Filter(CoreOperation, operations[..i])
      invariant report.entries == old(report.entries) + OperationReports(id, Filter(OtherOperation, operations[..i]))
    {
      assert operations[..i + 1][..i] == operations[..i];
      if CoreOperation(operations[i]) {
        mapped := mapped + [operations[i]];
      } else {
        report.Push(Unsupported(["resources", id, "operations", operations[i]], BadOperation(operations[i])));
      }
    }
    assert operations[..|operations|] == operations;
  }

  predicate IsText(m: Mapping) {
    m.value.kind == TextKind
  }

  predicate NotText(m: Mapping) {
    !IsText(m)
  }

  /** Assigning a text to this member of an ordinary object does nothing. */
  predicate Stays(m: Mapping) {
    IsText(m) && m.key != "__proto__"
  }

  function MappingReports(id: string, mappings: seq<Mapping>): (r: seq<Unsupported>)
    ensures |r| == |mappings|
    ensures forall i | 0 <= i < |r| ::
              r[i] == Unsupported(["resources", id, "fieldMappings", mappings[i].key],
                                  BadMapping(mappings[i].value.kind))
  {
    seq(|mappings|, i requires 0 <= i < |mappings| =>
      Unsupported(["resources", id, "fieldMappings", mappings[i].key], BadMapping(mappings[i].value.kind)))
  }

  function KeptMappings(mappings: Option<seq<Mapping>>): Option<seq<Mapping>> {
    if mappings.None? || Filter(Stays, mappings.value) == [] then None else Some(Filter(Stays, mappings.value))
  }

  function RefusedMappings(mappings: Option<seq<Mapping>>): seq<Mapping> {
    if mappings.None? then [] else Filter(NotText, mappings.value)
  }

  /** `mapFieldMappings`, on the own entries of an object, whose keys differ. */
  method MapFieldMappings(id: string, mappings: Option<seq<Mapping>>, report: Report)
      returns (kept: Option<seq<Mapping>>)
    modifies report
    ensures kept == KeptMappings(mappings)
    ensures report.entries == old(report.entries) + MappingReports(id, RefusedMappings(mappings))
  {
    if mappings.None? {
      return None;
    }
    var entries := mappings.value;
    var mapped: seq<Mapping> := [];
    for i := 0 to |entries|
      invariant mapped == Filter(Stays, entries[..i])
      invariant report.entries == old(report.entries) + MappingReports(id, Filter(NotText, entries[..i]))
    {
      assert entries[..i + 1][..i] == entries[..i];
      if entries[i].value.kind == TextKind {
        if entries[i].key != "__proto__" { mapped := mapped + [entries[i]]; }
      } else {
        report.Push(Unsupported(["resources", id, "fieldMappings", entries[i].key], BadMapping(entries[i].value.kind)));
      }
    }
    assert entries[..|entries|] == entries;
    kept := if mapped == [] then None else Some(mapped);
  }

  function Nothing(): string -> bool {
    key => false
  }

  function ResourceOf(texts: Texts, r: Resource): MappedResource {
    MappedResource(Filter(CoreOperation, r.operations), KeptMappings(r.mappings),
                   SchemaFields(texts, r.schema, |r.schema.entries|, Nothing()))
  }

  function ResourceReports(r: Resource): seq<Unsupported> {
    OperationReports(r.id, Filter(OtherOperation, r.operations)) +
    MappingReports(r.id, RefusedMappings(r.mappings)) +
    SchemaReports(r.schema, Nothing(), ["resources", r.id, "configuration_schema"])
  }

  /** `mapConnectorResource`. */
  method MapConnectorResource(texts: Texts, r: Resource, report: Report) returns (mapped: MappedResource)
    modifies report
    ensures mapped == ResourceOf(texts, r)
    ensures report.entries == old(report.entries) + ResourceReports(r)
  {
    ghost var before := report.entries;
    var operations := MapOperations(r.id, r.operations, report);
    var mappings := MapFieldMappings(r.id, r.mappings, report);
    ghost var a := OperationReports(r.id, Filter(OtherOperation, r.operations));
    ghost var b := MappingReports(r.id, RefusedMappings(r.mappings));
    var fields := MapSchemaFields(texts, r.schema, ["resources", r.id, "configuration_schema"], Nothing(), report);
    Chain(before, a, b, SchemaReports(r.schema, Nothing(), ["resources", r.id, "configuration_schema"]));
    mapped := MappedResource(operations, mappings, fields);
  }

  lemma Chain<X>(start: seq<X>, a: seq<X>, b: seq<X>, c: seq<X>)
    ensures start + a + b + c == start + (a + b + c)
  {
  }

  // ----- the whole descriptor -----

  function Omitted(keys: set<string>): string -> bool {
    key => key in keys
  }

  function ConfigFieldsOf(texts: Texts, m: Metadata): seq<ConfigField> {
    SchemaFields(texts, m.schema, |m.schema.entries|, Omitted(Keys(Credentials(texts, m))))
  }

  function ResourcesOf(texts: Texts, rs: seq<Resource>, n: nat): (r: seq<MappedResource>)
    requires n <= |rs|
    ensures |r| == n
  {
    if n == 0 then [] else ResourcesOf(texts, rs, n - 1) + [ResourceOf(texts, rs[n - 1])]
  }

  function AllResourceReports(rs: seq<Resource>): seq<Unsupported> {
    Gather(ResourceReports, rs, |rs|)
  }

  function Reports(texts: Texts, m: Metadata): seq<Unsupported> {
    CredentialReports(texts, m) +
    SchemaReports(m.schema, Omitted(Keys(Credentials(texts, m))), ConfigPrefix) +
    AllResourceReports(m.resources)
  }

  method MapResources(texts: Texts, rs: seq<Resource>, report: Report) returns (resources: seq<MappedResource>)
    modifies report
    ensures resources == ResourcesOf(texts, rs, |rs|)
    ensures report.entries == old(report.entries) + AllResourceReports(rs)
  {
    resources := [];
    for i := 0 to |rs|
      invariant resources == ResourcesOf(texts, rs, i)
      invariant report.entries == old(report.entries) + Gather(ResourceReports, rs, i)
    {
      ghost var before := report.entries;
      var mapped := MapConnectorResource(texts, rs[i], report);
      resources := resources + [mapped];
      Reassociate(report.entries, old(report.entries), Gather(ResourceReports, rs, i), ResourceReports(rs[i]));
    }
  }

  lemma Reassociate<X>(whole: seq<X>, a: seq<X>, b: seq<X>, c: seq<X>)
    requires whole == a + b + c
    ensures whole == a + (b + c)
  {
  }

  /** `mapConnectorMetadataToDescriptor`. */
  method MapConnectorMetadata(texts: Texts, m: Metadata) returns (descriptor: Descriptor, unsupported: seq<Unsupported>)
    ensures descriptor ==
            Descriptor(AuthOf(texts, m), ConfigFieldsOf(texts, m), ResourcesOf(texts, m.resources, |m.resources|))
    ensures unsupported == Reports(texts, m)
  {
    var report := new Report();
    var auth, keys := MapAuthSubstrate(texts, m, report);
    assert report.entries == CredentialReports(texts, m);
    var configFields := MapSchemaFields(texts, m.schema, ConfigPrefix, Omitted(keys), report);
    var resources := MapResources(texts, m.resources, report);
    descriptor := Descriptor(auth, configFields, resources);
    unsupported := report.entries;
  }

  // ----- nothing is lost, nothing is doubled -----

  predicate UniqueKeys(schema: Schema) {
    forall i, j | 0 <= i < j < |schema.entries| :: schema.entries[i].key != schema.entries[j].key
  }

  function FieldCount(fields: seq<ConfigField>, key: string): nat {
    if fields == [] then 0
    else FieldCount(fields[..|fields| - 1], key) + if fields[|fields| - 1].key == key then 1 else 0
  }

  /** The type complaints under a path. */
  function Complaints(reports: seq<Unsupported>, path: seq<string>): nat {
    if reports == [] then 0
    else
      var r := reports[|reports| - 1];
      Complaints(reports[..|reports| - 1], path) + if r.path == path && r.reason.BadType? then 1 else 0
  }

  lemma {:induction false} FieldCountConcat(a: seq<ConfigField>, b: seq<ConfigField>, key: string)
    ensures FieldCount(a + b, key) == FieldCount(a, key) + FieldCount(b, key)
  {
    if b == [] {
      assert a + b == a;
    } else {
      assert (a + b)[..|a + b| - 1] == a + b[..|b| - 1];
      FieldCountConcat(a, b[..|b| - 1], key);
    }
  }

  lemma {:induction false} ComplaintsConcat(a: seq<Unsupported>, b: seq<Unsupported>, path: seq<string>)
    ensures Complaints(a + b, path) == Complaints(a, path) + Complaints(b, path)
  {
    if b == [] {
      assert a + b == a;
    } else {
      assert (a + b)[..|a + b| - 1] == a + b[..|b| - 1];
      ComplaintsConcat(a, b[..|b| - 1], path);
    }
  }

  lemma FieldCountStep(texts: Texts, schema: Schema, n: nat, skip: string -> bool, key: string)
    requires 0 < n <= |schema.entries|
    ensures var e := schema.entries[n - 1];
            FieldCount(SchemaFields(texts, schema, n, skip), key) ==
            FieldCount(SchemaFields(texts, schema, n - 1, skip), key) +
            if e.key == key && !skip(e.key) && Representable(e.property) then 1 else 0
  {
    var e := schema.entries[n - 1];
    FieldCountConcat(SchemaFields(texts, schema, n - 1, skip), EntryFields(texts, schema, e, skip), key);
    FewFields(EntryFields(texts, schema, e, skip), key);
  }

  /** What the first `n` entries leave under the key of entry `i`. */
  lemma {:induction false} EntryIsMappedOnce(texts: Texts, schema: Schema, n: nat, skip: string -> bool, i: nat)
    requires UniqueKeys(schema) && n <= |schema.entries| && i < |schema.entries|
    ensures var e := schema.entries[i];
            FieldCount(SchemaFields(texts, schema, n, skip), e.key) ==
            if i < n && !skip(e.key) && Representable(e.property) then 1 else 0
  {
    if n > 0 {
      EntryIsMappedOnce(texts, schema, n - 1, skip, i);
      FieldCountStep(texts, schema, n, skip, schema.entries[i].key);
    }
  }

  lemma PathsDiffer(prefix: seq<string>, a: string, b: string)
    ensures PropertyPath(prefix, a) == PropertyPath(prefix, b) <==> a == b
  {
    assert PropertyPath(prefix, a)[|prefix| + 1] == a && PropertyPath(prefix, b)[|prefix| + 1] == b;
  }

  /** If only element `i` is complained about under a path, its complaints are all there are. */
  lemma {:induction false} GatherCounts<X>(f: X -> seq<Unsupported>, s: seq<X>, n: nat, i: nat, path: seq<string>)
    requires n <= |s| && forall j | 0 <= j < n && j != i :: Complaints(f(s[j]), path) == 0
    ensures Complaints(Gather(f, s, n), path) == if i < n then Complaints(f(s[i]), path) else 0
  {
    if n > 0 {
      GatherCounts(f, s, n - 1, i, path);
      ComplaintsConcat(Gather(f, s, n - 1), f(s[n - 1]), path);
    }
  }

  lemma EntryIsReportedOnce(schema: Schema, skip: string -> bool, prefix: seq<string>, i: nat)
    requires UniqueKeys(schema) && i < |schema.entries|
    ensures var e := schema.entries[i];
            Complaints(SchemaReports(schema, skip, prefix), PropertyPath(prefix, e.key)) ==
            if !skip(e.key) && !Representable(e.property) then 1 else 0
  {
    var f, path := Reporter(skip, prefix), PropertyPath(prefix, schema.entries[i].key);
    forall j | 0 <= j < |schema.entries|
      ensures var e := schema.entries[j];
              Complaints(f(e), path) == if j == i && !skip(e.key) && !Representable(e.property) then 1 else 0
    {
      var e := schema.entries[j];
      PathsDiffer(prefix, e.key, schema.entries[i].key);
      FewReports(EntryReports(e, skip, prefix), path);
    }
    GatherCounts(f, schema.entries, |schema.entries|, i, path);
  }

  lemma FewFields(fields: seq<ConfigField>, key: string)
    requires |fields| <= 1
    ensures FieldCount(fields, key) == if |fields| == 1 && fields[0].key == key then 1 else 0
  {
    if |fields| == 1 {
      assert fields[..0] == [];
    }
  }

  lemma FewReports(reports: seq<Unsupported>, path: seq<string>)
    requires |reports| <= 1
    ensures Complaints(reports, path) ==
            if |reports| == 1 && reports[0].path == path && reports[0].reason.BadType? then 1 else 0
  {
    if |reports| == 1 {
      assert reports[..0] == [];
    }
  }

  lemma {:induction false} FieldCountIsMembership(fields: seq<ConfigField>, key: string)
    ensures FieldCount(fields, key) > 0 <==> key in Keys(fields)
  {
    if fields != [] {
      var n := |fields| - 1;
      FieldCountIsMembership(fields[..n], key);
      assert fields == fields[..n] + [fields[n]];
      assert Keys(fields) == Keys(fields[..n]) + {fields[n].key};
    }
  }

  predicate StartsWith(r: Unsupported, part: string) {
    r.path != [] && r.path[0] == part
  }

  lemma {:induction false} NoComplaints(reports: seq<Unsupported>, part: string, path: seq<string>)
    requires AllStart(reports, part)
    requires path != [] && path[0] != part
    ensures Complaints(reports, path) == 0
  {
    if reports != [] {
      var n := |reports| - 1;
      assert reports[n] in reports && forall r | r in reports[..n] :: r in reports;
      NoComplaints(reports[..n], part, path);
    }
  }

  predicate AllStart(reports: seq<Unsupported>, part: string) {
    forall r | r in reports :: StartsWith(r, part)
  }

  lemma AllStartConcat(a: seq<Unsupported>, b: seq<Unsupported>, part: string)
    requires AllStart(a, part) && AllStart(b, part)
    ensures AllStart(a + b, part)
  {
  }

  lemma {:induction false} ExplicitReportsStart(raw: seq<AuthField>)
    ensures AllStart(ExplicitReports(raw), "authentication")
  {
    if raw != [] {
      ExplicitReportsStart(raw[..|raw| - 1]);
    }
  }

  lemma {:induction false} GatherStarts<X>(f: X -> seq<Unsupported>, s: seq<X>, n: nat, part: string)
    requires n <= |s| && forall j | 0 <= j < n :: AllStart(f(s[j]), part)
    ensures AllStart(Gather(f, s, n), part)
  {
    if n > 0 {
      GatherStarts(f, s, n - 1, part);
      AllStartConcat(Gather(f, s, n - 1), f(s[n - 1]), part);
    }
  }

  lemma SchemaReportsStart(schema: Schema, skip: string -> bool, prefix: seq<string>)
    requires prefix != []
    ensures AllStart(SchemaReports(schema, skip, prefix), prefix[0])
  {
    GatherStarts(Reporter(skip, prefix), schema.entries, |schema.entries|, prefix[0]);
  }

  lemma ResourceReportsStart(rs: seq<Resource>)
    ensures AllStart(AllResourceReports(rs), "resources")
  {
    forall j | 0 <= j < |rs|
      ensures AllStart(ResourceReports(rs[j]), "resources")
    {
      OneResourceStarts(rs[j]);
    }
    GatherStarts(ResourceReports, rs, |rs|, "resources");
  }

  lemma OneResourceStarts(r: Resource)
    ensures AllStart(ResourceReports(r), "resources")
  {
    SchemaReportsStart(r.schema, Nothing(), ["resources", r.id, "configuration_schema"]);
  }

  /**
   A property that credentials are taken from, but cannot be, is complained about there and again as a config field.
   */
  predicate ComplainedTwice(texts: Texts, m: Metadata, e: Entry) {
    Implicit(texts, m) && texts.credential(e.key) && !Representable(e.property)
  }

  /**
   Every configuration property is exactly one of: the key of a credential, one config field, or complained about
   under its path -- once, or twice when no explicit credential was mapped and its key looks like one.
   */
  lemma PropertyIsConserved(texts: Texts, m: Metadata, i: nat)
    requires UniqueKeys(m.schema) && i < |m.schema.entries|
    ensures var e, path := m.schema.entries[i], ["configuration_schema", "properties", m.schema.entries[i].key];
            var credential := e.key in Keys(Credentials(texts, m));
            && FieldCount(ConfigFieldsOf(texts, m), e.key) ==
               (if !credential && Representable(e.property) then 1 else 0)
            && Complaints(Reports(texts, m), path) ==
               (if ComplainedTwice(texts, m, e) then 2 else if !credential && !Representable(e.property) then 1 else 0)
  {
    var e, path, n := m.schema.entries[i], PropertyPath(ConfigPrefix, m.schema.entries[i].key), |m.schema.entries|;
    var skip := Omitted(Keys(Credentials(texts, m)));
    assert path == ["configuration_schema", "properties", e.key];
    EntryIsMappedOnce(texts, m.schema, n, skip, i);
    EntryIsMappedOnce(texts, m.schema, n, NotCredential(texts), i);
    EntryIsReportedOnce(m.schema, skip, ConfigPrefix, i);
    EntryIsReportedOnce(m.schema, NotCredential(texts), ConfigPrefix, i);
    ReportsAdd(texts, m, path);
    if Implicit(texts, m) {
      FieldCountIsMembership(Credentials(texts, m), e.key);
    }
  }

  /** Where the type complaints under a path of the configuration schema come from. */
  lemma ReportsAdd(texts: Texts, m: Metadata, path: seq<string>)
    requires path != [] && path[0] == "configuration_schema"
    ensures var n := |m.schema.entries|;
            Complaints(Reports(texts, m), path) ==
            (if Implicit(texts, m) then Complaints(SchemaReports(m.schema, NotCredential(texts), ConfigPrefix), path)
             else 0) +
            Complaints(SchemaReports(m.schema, Omitted(Keys(Credentials(texts, m))), ConfigPrefix), path)
  {
    var n := |m.schema.entries|;
    var implicit := if Implicit(texts, m) then SchemaReports(m.schema, NotCredential(texts), ConfigPrefix) else [];
    var config := SchemaReports(m.schema, Omitted(Keys(Credentials(texts, m))), ConfigPrefix);
    ExplicitReportsStart(RawFields(m));
    NoComplaints(ExplicitReports(RawFields(m)), "authentication", path);
    ResourceReportsStart(m.resources);
    NoComplaints(AllResourceReports(m.resources), "resources", path);
    ComplaintsConcat(ExplicitReports(RawFields(m)), implicit, path);
    ComplaintsConcat(CredentialReports(texts, m), config, path);
    ComplaintsConcat(CredentialReports(texts, m) + config, AllResourceReports(m.resources), path);
  }

  /** Nothing is invented: a field comes from an entry that was not skipped, and says what that entry says. */
  lemma {:induction false} FieldsComeFromEntries(texts: Texts, schema: Schema, n: nat, skip: string -> bool,
                                                 f: ConfigField)
    requires n <= |schema.entries| && f in SchemaFields(texts, schema, n, skip)
    ensures exists i | 0 <= i < n :: var e := schema.entries[i];
              && !skip(e.key) && Representable(e.property)
              && f == FieldOf(e.key, e.property, e.key in schema.required, texts.humanize(e.key))
  {
    var e := schema.entries[n - 1];
    if f in SchemaFields(texts, schema, n - 1, skip) {
      FieldsComeFromEntries(texts, schema, n - 1, skip, f);
    }
  }

  /** No key is asked for both as a credential and as configuration. */
  lemma CredentialsAreNotConfiguration(texts: Texts, m: Metadata)
    ensures Keys(Credentials(texts, m)) !! Keys(ConfigFieldsOf(texts, m))
  {
    var skip := Omitted(Keys(Credentials(texts, m)));
    forall f | f in ConfigFieldsOf(texts, m)
      ensures f.key !in Keys(Credentials(texts, m))
    {
      FieldsComeFromEntries(texts, m.schema, |m.schema.entries|, skip, f);
    }
  }

  // ----- splitting keeps order and count -----

  /** Operations: mapped and reported ones keep their order, and together they are the operations given. */
  lemma OperationsAreConserved(operations: seq<string>)
    ensures Subsequence(Filter(CoreOperation, operations), operations)
    ensures Subsequence(Filter(OtherOperation, operations), operations)
    ensures multiset(Filter(CoreOperation, operations)) + multiset(Filter(OtherOperation, operations)) ==
            multiset(operations)
    ensures forall x | x in Filter(CoreOperation, operations) :: CoreOperation(x)
  {
    FilterIsSubsequence(CoreOperation, operations);
    FilterIsSubsequence(OtherOperation, operations);
    FilterMembers(CoreOperation, operations);
    forall x: string
      ensures multiset(Filter(CoreOperation, operations))[x] + multiset(Filter(OtherOperation, operations))[x] ==
              multiset(operations)[x]
    {
      FiltersCount(CoreOperation, OtherOperation, operations, x);
    }
  }

  /**
   Field mappings: kept and reported ones are all there is, unless a text is mapped under `__proto__`, which is dropped
   silently.
   */
  lemma MappingsAreConservedIff(mappings: seq<Mapping>)
    ensures Subsequence(Filter(Stays, mappings), mappings)
    ensures Subsequence(Filter(NotText, mappings), mappings)
    ensures multiset(Filter(Stays, mappings)) + multiset(Filter(NotText, mappings)) == multiset(mappings) <==>
            !exists m :: m in mappings && IsText(m) && m.key == "__proto__"
  {
    FilterIsSubsequence(Stays, mappings);
    FilterIsSubsequence(NotText, mappings);
    var both := multiset(Filter(Stays, mappings)) + multiset(Filter(NotText, mappings));
    forall m: Mapping
      ensures both[m] == if IsText(m) && m.key == "__proto__" then 0 else multiset(mappings)[m]
    {
      FiltersCount(Stays, NotText, mappings, m);
    }
    forall m | m in mappings && IsText(m) && m.key == "__proto__"
      ensures both != multiset(mappings)
    {
      assert multiset(mappings)[m] > 0;
    }
    if !exists m :: m in mappings && IsText(m) && m.key == "__proto__" {
      assert forall m: Mapping :: both[m] == multiset(mappings)[m] by {
        forall m: Mapping
          ensures both[m] == multiset(mappings)[m]
        {
          if m !in mappings { assert multiset(mappings)[m] == 0; }
        }
      }
    }
  }
}
