/** What the parts of a mapped descriptor say, member by member. */
module DescriptorFields {
  import opened Wrappers
  import opened Sequences
  import opened DescriptorMapper

  // ----- one field -----

  /** Which type a property gets: a choice wins over the declared type, and five kinds of declared type have one. */
  lemma FieldTypeIff(p: Property)
    ensures FieldTypeOf(p) == Some(Select) <==> p.choices.Some?
    ensures FieldTypeOf(p) == Some(Text) <==>
            p.choices.None? && p.declared in {Some("string"), Some("text"), Some("password")}
    ensures FieldTypeOf(p) == Some(List) <==> p.choices.None? && p.declared == Some("array")
    ensures FieldTypeOf(p) == Some(Number) <==> p.choices.None? && p.declared in {Some("integer"), Some("number")}
    ensures FieldTypeOf(p) == Some(Boolean) <==> p.choices.None? && p.declared == Some("boolean")
    ensures FieldTypeOf(p).None? <==>
            && p.choices.None?
            && p.declared !in {Some("string"), Some("text"), Some("password"), Some("array"), Some("integer"),
                               Some("number"), Some("boolean")}
  {
  }

  /** Everything a mapped field says, and what is reported beside it or in its place. */
  lemma FieldSays(key: string, p: Property, required: bool, caption: string, path: seq<string>)
    ensures FieldTypeOf(p).None? ==>
              && Fields(key, p, required, caption) == []
              && FieldReports(p, path) == [Unsupported(path, BadType(p.declared))]
    ensures FieldTypeOf(p).Some? ==>
              && |Fields(key, p, required, caption)| == 1
              && var f := Fields(key, p, required, caption)[0];
                 && f.key == key && f.caption == caption && f.required == required
                 && Some(f.fieldType) == FieldTypeOf(p)
                 && f.hint == p.description && f.placeholder == p.placeholder
                 && f.options.Some? == p.choices.Some?
                 && (p.choices.Some? ==>
                       && |f.options.value| == |p.choices.value|
                       && forall i | 0 <= i < |p.choices.value| :: f.options.value[i] == p.choices.value[i].text)
                 && (var plain := p.standard.Some? && p.standard.value.kind in {TextKind, NumberKind, BooleanKind};
                     && f.standard == (if plain then p.standard else None)
                     && FieldReports(p, path) ==
                        if p.standard.Some? && !plain then [Unsupported(path + ["default"], BadDefault)] else [])
  {
  }

  // ----- the fields of a schema -----

  function Taken(skip: string -> bool): Entry -> bool {
    (e: Entry) => !skip(e.key) && Representable(e.property)
  }

  /**
   The fields of a schema are its entries that are not skipped and have a type, in order, each required if listed so.
   */
  lemma {:induction false} SchemaFieldsAre(texts: Texts, schema: Schema, n: nat, skip: string -> bool)
    requires n <= |schema.entries|
    ensures var taken, fields := Filter(Taken(skip), schema.entries[..n]), SchemaFields(texts, schema, n, skip);
            && |fields| == |taken|
            && forall i | 0 <= i < |taken| ::
                 && fields[i].key == taken[i].key && fields[i].caption == texts.humanize(taken[i].key)
                 && fields[i].required == (taken[i].key in schema.required)
                 && fields[i].hint == taken[i].property.description
                 && Some(fields[i].fieldType) == FieldTypeOf(taken[i].property)
  {
    if n > 0 {
      SchemaFieldsAre(texts, schema, n - 1, skip);
      assert schema.entries[..n][..n - 1] == schema.entries[..n - 1];
    }
  }

  // ----- explicit credentials -----

  /** The key of a credential field: its `key`, or else its `name`, if that is not empty. */
  function CredentialKey(f: AuthField): Option<string> {
    match f.key
    case Some(k) => if k == "" then None else f.key
    case None => if f.name == Some("") then None else f.name
  }

  /** The choices of a credential field: a member `value` stands for an object that has one. */
  lemma ChoicesAre(p: Property)
    ensures Normalized(p).(choices := p.choices) == p && Normalized(p).choices.Some? == p.choices.Some?
    ensures p.choices.Some? ==>
              && |Normalized(p).choices.value| == |p.choices.value|
              && forall i | 0 <= i < |p.choices.value| ::
                   Normalized(p).choices.value[i] ==
                   match p.choices.value[i].inner case Some(v) => v case None => p.choices.value[i]
  {
  }

  function Mappable(): AuthField -> bool {
    (f: AuthField) => CredentialKey(f).Some? && Representable(Normalized(f.property))
  }

  function Keyless(): AuthField -> bool {
    (f: AuthField) => CredentialKey(f).None?
  }

  function SaysMissingKey(): Unsupported -> bool {
    (u: Unsupported) => u.reason.MissingKey?
  }

  /**
   The explicit credentials are the fields with a key and a type, in order, under key, label and requirement of their
   own.
   */
  lemma {:induction false} ExplicitFieldsAre(texts: Texts, raw: seq<AuthField>)
    ensures var taken, fields := Filter(Mappable(), raw), ExplicitFields(texts, raw);
            && |fields| == |taken|
            && forall i | 0 <= i < |taken| ::
                 && Some(fields[i].key) == CredentialKey(taken[i]) && fields[i].required == taken[i].required
                 && fields[i].caption ==
                    (match taken[i].caption case Some(c) => c case None => texts.humanize(fields[i].key))
                 && fields[i].hint == taken[i].property.description
                 && Some(fields[i].fieldType) == FieldTypeOf(Normalized(taken[i].property))
  {
    if raw != [] {
      ExplicitFieldsAre(texts, raw[..|raw| - 1]);
    }
  }

  /** What one credential field is reported for. */
  function OwnReports(f: AuthField): seq<Unsupported> {
    if HasKey(f) then FieldReports(Normalized(f.property), ["authentication", "fields", KeyOf(f).value])
    else [Unsupported(["authentication", "fields"], MissingKey)]
  }

  lemma OwnReportsSay(f: AuthField)
    ensures |Filter(SaysMissingKey(), OwnReports(f))| == if CredentialKey(f).None? then 1 else 0
  {
    if OwnReports(f) != [] {
      assert |OwnReports(f)| == 1 && OwnReports(f)[..0] == [];
    }
  }

  /** And each field without a key is reported as such. */
  lemma {:induction false} KeylessAreReported(raw: seq<AuthField>)
    ensures |Filter(SaysMissingKey(), ExplicitReports(raw))| == |Filter(Keyless(), raw)|
  {
    if raw != [] {
      var n := |raw| - 1;
      KeylessAreReported(raw[..n]);
      FilterConcat(SaysMissingKey(), ExplicitReports(raw[..n]), OwnReports(raw[n]));
      OwnReportsSay(raw[n]);
    }
  }

  // ----- the kind of authentication -----

  ghost predicate Contains(name: string, part: string) {
    exists i :: OccursAt(name, part, i)
  }

  ghost predicate SaysOAuth2App(methods: seq<string>) {
    "oauth2_app" in methods || exists m :: m in methods && Contains(m, "oauth2_client")
  }

  ghost predicate SaysBasic(methods: seq<string>) {
    "winrm" in methods || exists m :: m in methods && Contains(m, "basic")
  }

  ghost predicate SaysKey(methods: seq<string>) {
    exists m :: m in methods && (Contains(m, "api_key") || Contains(m, "api_token"))
  }

  lemma NamesIff(methods: seq<string>)
    ensures (exists x | x in methods :: NamesOAuth2App(x)) <==> SaysOAuth2App(methods)
    ensures (exists x | x in methods :: NamesBasic(x)) <==> SaysBasic(methods)
    ensures (exists x | x in methods :: NamesKey(x)) <==> SaysKey(methods)
  {
    forall x
      ensures NamesOAuth2App(x) <==> x == "oauth2_app" || Contains(x, "oauth2_client")
      ensures NamesBasic(x) <==> x == "winrm" || Contains(x, "basic")
      ensures NamesKey(x) <==> Contains(x, "api_key") || Contains(x, "api_token")
    {
      IncludesIff(x, "oauth2_client");
      IncludesIff(x, "basic");
      IncludesIff(x, "api_key");
      IncludesIff(x, "api_token");
    }
  }

  /**
   Which kind is inferred when authentication was not declined: the first of four families named, or else by the
   fields.
   */
  lemma KindIff(methods: seq<string>, fields: nat, required: Option<bool>)
    ensures var declined := required == Some(false) && "none" in methods && fields == 0;
            var kind := InferAuthKind(methods, fields, required);
            && (kind == OAuth2App <==> !declined && SaysOAuth2App(methods))
            && (kind == OAuth2 <==> !declined && !SaysOAuth2App(methods) && "oauth2" in methods)
            && (kind == Token <==>
                  && !declined && !SaysOAuth2App(methods) && "oauth2" !in methods && !SaysBasic(methods)
                  && (fields == 1 || (fields == 0 && SaysKey(methods))))
            && (kind == Basic <==>
                  && !declined && !SaysOAuth2App(methods) && "oauth2" !in methods
                  && (SaysBasic(methods) || fields >= 2))
  {
    NamesIff(methods);
  }

  /**
   Scopes and the environment flag are those given; so is the provider, and an OAuth kind without one takes the first
   method.
   */
  lemma AuthCopies(texts: Texts, m: Metadata)
    ensures var auth := AuthOf(texts, m);
            && (m.authentication.None? ==> auth.scopes.None? && auth.envOnly.None? && auth.provider.None?)
            && (m.authentication.Some? ==>
                  && auth.scopes == m.authentication.value.scopes && auth.envOnly == m.authentication.value.envOnly
                  && (m.authentication.value.provider.Some? ==> auth.provider == m.authentication.value.provider)
                  && (m.authentication.value.provider.None? && auth.kind != OAuth2 && auth.kind != OAuth2App ==>
                        auth.provider.None?))
  {
    AuthFits(texts, m);
  }

  /** A property of the schema that serves as a credential. */
  function Serves(texts: Texts): Entry -> bool {
    (e: Entry) => texts.credential(e.key) && FieldTypeOf(e.property).Some?
  }

  /**
   Where the credentials come from: from the fields given, as soon as one of them can be mapped, and otherwise from the
   credential-like properties of the configuration.
   */
  lemma CredentialsAre(texts: Texts, m: Metadata)
    ensures var raw := if m.authentication.Some? then m.authentication.value.fields else [];
            var given, implied := Filter(Mappable(), raw), Filter(Serves(texts), m.schema.entries);
            var fields := AuthOf(texts, m).fields;
            && (given != [] ==>
                  && |fields| == |given|
                  && forall i | 0 <= i < |given| ::
                       Some(fields[i].key) == CredentialKey(given[i]) && fields[i].required == given[i].required)
            && (given == [] ==>
                  && |fields| == |implied|
                  && forall i | 0 <= i < |implied| ::
                       && fields[i].key == implied[i].key
                       && fields[i].required == (implied[i].key in m.schema.required))
  {
    var n := |m.schema.entries|;
    ExplicitFieldsAre(texts, RawFields(m));
    SchemaFieldsAre(texts, m.schema, n, NotCredential(texts));
    assert m.schema.entries[..n] == m.schema.entries;
    forall e | e in m.schema.entries ensures Serves(texts)(e) == Taken(NotCredential(texts))(e) {
      assert NotCredential(texts)(e.key) == !texts.credential(e.key);
    }
    FilterAgrees(Serves(texts), Taken(NotCredential(texts)), m.schema.entries);
  }

  /** What the kind is inferred from: the methods given, or the type in their place, in lower case, and the fields. */
  lemma KindIsInferred(texts: Texts, m: Metadata)
    ensures m.authentication.None? ==> Methods(m) == []
    ensures m.authentication.Some? ==>
              var given := m.authentication.value;
              && (given.methods.Some? ==> Methods(m) == given.methods.value)
              && (given.methods.None? && given.authType.Some? ==> Methods(m) == [given.authType.value])
              && (given.methods.None? && given.authType.None? ==> Methods(m) == [])
    ensures exists lowered: seq<string> ::
              && |lowered| == |Methods(m)|
              && (forall i | 0 <= i < |lowered| :: lowered[i] == texts.lower(Methods(m)[i]))
              && AuthOf(texts, m).kind ==
                 InferAuthKind(lowered, |AuthOf(texts, m).fields|,
                               if m.authentication.Some? then m.authentication.value.required else None)
  {
    var lowered := LowerAll(texts, Methods(m));
    assert forall i | 0 <= i < |lowered| :: lowered[i] == texts.lower(Methods(m)[i]);
  }

  // ----- resources -----

  /** The operations kept are the four of the core, and the mappings kept the texts but for one key. */
  lemma ResourcesKeep(operations: seq<string>, mappings: seq<Mapping>)
    ensures forall x :: x in Filter(CoreOperation, operations) <==>
              x in operations && x in {"extract", "transform", "load", "sync_to_source"}
    ensures forall m :: m in Filter(Stays, mappings) <==>
              m in mappings && m.value.kind == TextKind && m.key != "__proto__"
    ensures forall m :: m in Filter(NotText, mappings) <==> m in mappings && m.value.kind != TextKind
  {
    FilterMembers(CoreOperation, operations);
    FilterMembers(Stays, mappings);
    FilterMembers(NotText, mappings);
  }

  lemma {:induction false} GatherMembers<X>(f: X -> seq<Unsupported>, s: seq<X>, n: nat, r: Unsupported)
    requires n <= |s|
    ensures r in Gather(f, s, n) <==> exists i :: 0 <= i < n && r in f(s[i])
  {
    if n > 0 {
      GatherMembers(f, s, n - 1, r);
    }
  }

  ghost predicate NamesOperation(r: Unsupported, of: Resource) {
    exists x :: x in of.operations && x !in {"extract", "transform", "load", "sync_to_source"}
                && r == Unsupported(["resources", of.id, "operations", x], BadOperation(x))
  }

  ghost predicate NamesMapping(r: Unsupported, of: Resource) {
    of.mappings.Some?
    && exists m :: m in of.mappings.value && m.value.kind != TextKind
                   && r == Unsupported(["resources", of.id, "fieldMappings", m.key], BadMapping(m.value.kind))
  }

  ghost predicate NamesProperty(r: Unsupported, of: Resource) {
    exists i :: 0 <= i < |of.schema.entries|
                && r in FieldReports(of.schema.entries[i].property,
                                     ["resources", of.id, "configuration_schema", "properties",
                                      of.schema.entries[i].key])
  }

  /** What a resource is reported for: operations outside the core, mappings to no text, and its properties. */
  lemma ResourceReportsAre(of: Resource, r: Unsupported)
    ensures r in ResourceReports(of) <==> NamesOperation(r, of) || NamesMapping(r, of) || NamesProperty(r, of)
  {
    OperationsNamed(of, r);
    MappingsNamed(of, r);
    PropertiesNamed(of, r);
  }

  lemma OperationsNamed(of: Resource, r: Unsupported)
    ensures r in OperationReports(of.id, Filter(OtherOperation, of.operations)) <==> NamesOperation(r, of)
  {
    var refused := Filter(OtherOperation, of.operations);
    var reports := OperationReports(of.id, refused);
    FilterMembers(OtherOperation, of.operations);
    if r in reports {
      var i :| 0 <= i < |reports| && reports[i] == r;
      assert refused[i] in refused;
    }
    if NamesOperation(r, of) {
      var x :| x in of.operations && x !in {"extract", "transform", "load", "sync_to_source"}
               && r == Unsupported(["resources", of.id, "operations", x], BadOperation(x));
      assert x in refused;
      var i :| 0 <= i < |refused| && refused[i] == x;
      assert reports[i] == r;
    }
  }

  lemma MappingsNamed(of: Resource, r: Unsupported)
    ensures r in MappingReports(of.id, RefusedMappings(of.mappings)) <==> NamesMapping(r, of)
  {
    var refused := RefusedMappings(of.mappings);
    var reports := MappingReports(of.id, refused);
    if of.mappings.Some? {
      FilterMembers(NotText, of.mappings.value);
    }
    if r in reports {
      var i :| 0 <= i < |reports| && reports[i] == r;
      assert refused[i] in refused;
    }
    if NamesMapping(r, of) {
      var m :| m in of.mappings.value && m.value.kind != TextKind
               && r == Unsupported(["resources", of.id, "fieldMappings", m.key], BadMapping(m.value.kind));
      assert m in refused;
      var i :| 0 <= i < |refused| && refused[i] == m;
      assert reports[i] == r;
    }
  }

  lemma PropertiesNamed(of: Resource, r: Unsupported)
    ensures r in SchemaReports(of.schema, Nothing(), ["resources", of.id, "configuration_schema"]) <==>
            NamesProperty(r, of)
  {
    var prefix, entries := ["resources", of.id, "configuration_schema"], of.schema.entries;
    GatherMembers(Reporter(Nothing(), prefix), entries, |entries|, r);
    forall i | 0 <= i < |entries|
      ensures Reporter(Nothing(), prefix)(entries[i]) ==
              FieldReports(entries[i].property, ["resources", of.id, "configuration_schema", "properties",
                                                 entries[i].key])
    {
      assert prefix + ["properties", entries[i].key] ==
             ["resources", of.id, "configuration_schema", "properties", entries[i].key];
    }
  }
}
