/**
 The console configuration: a TOML document, the change key the supervisor diffs for one app,
 the structured edits of the console, and the build-time reader of one app.
 */
module Config {
  import opened Sequences
  import opened Text

  /** A TOML value as the readers see it. */
  datatype Value =
    | Str(text: string)
    | Bool(flag: bool)
    | Number(number: int)
    | Arr(items: seq<Value>)
    | Table(entries: map<string, Value>)

  /**
   A top-level item as the editor sees it: only a standard table can be edited in place; an
   inline table, an array of tables or a scalar cannot.
   */
  datatype Item = Standard(entries: map<string, Value>) | Plain(value: Value)

  type Document = map<string, Item>

  function ValueOf(item: Item): Value {
    match item
    case Standard(entries) => Table(entries)
    case Plain(value) => value
  }

  function Lookup(doc: Document, key: string): Option<Value> {
    if key in doc then Some(ValueOf(doc[key])) else None
  }

  function Get(v: Value, key: string): Option<Value> {
    if v.Table? && key in v.entries then Some(v.entries[key]) else None
  }

  function GetFrom(v: Option<Value>, key: string): Option<Value> {
    if v.Some? then Get(v.value, key) else None
  }

  const REGISTRY := "lark-apps"
  const CONSOLE := "console"

  // ---- the change key -----------------------------------------------------------

  datatype ChangeKey = ChangeKey(section: Option<Value>, larkApp: Option<Value>) {
    predicate Enabled() {
      GetFrom(section, "enabled") == Some(Bool(true))
    }
  }

  /** The registry entry a section names, if it names one that exists. */
  function Bound(section: Option<Value>, registry: Option<Value>): Option<Value> {
    var reference := GetFrom(section, "lark_app");
    if reference.Some? && reference.value.Str? then GetFrom(registry, reference.value.text) else None
  }

  /** The change key of app `name`; a text that is not TOML has no document. */
  function Compute(config: Option<Document>, name: string): ChangeKey {
    if config.None? then ChangeKey(None, None)
    else
      var section := Lookup(config.value, name);
      ChangeKey(section, Bound(section, Lookup(config.value, REGISTRY)))
  }

  function KeyOf(doc: Document, name: string): ChangeKey {
    Compute(Some(doc), name)
  }

  /** The value of a field of a section, wherever both are there. */
  function At(doc: Document, section: string, field: string): Option<Value> {
    if section !in doc then None
    else match doc[section]
      case Standard(entries) => if field in entries then Some(entries[field]) else None
      case Plain(Table(entries)) => if field in entries then Some(entries[field]) else None
      case Plain(_) => None
  }

  /** The text is TOML and says `enabled = true`, the Boolean, in the section of app `name`. */
  predicate FlagSet(config: Option<Document>, name: string) {
    config.Some? && At(config.value, name, "enabled") == Some(Bool(true))
  }

  /** An app is enabled by that alone: no document, no section, no field and any other value leave it disabled. */
  lemma EnabledIffFlag(config: Option<Document>, name: string)
    ensures Compute(config, name).Enabled() <==> FlagSet(config, name)
  {
  }

  // ---- the structured edits --------------------------------------------------------

  /** The entries an edit of section `key` starts from; None when the item is no standard table. */
  function Editable(doc: Document, key: string): Option<map<string, Value>> {
    if key !in doc then Some(map[])
    else if doc[key].Standard? then Some(doc[key].entries)
    else None
  }

  function Put(doc: Document, key: string, field: string, value: Option<Value>): Option<Document> {
    var entries := Editable(doc, key);
    if entries.None? then None
    else Some(doc[key := Standard(
      if value.Some? then entries.value[field := value.value] else entries.value - {field})])
  }

  /** A write of one field changes that field and nothing else; only a section that is no standard table refuses it. */
  lemma PutMeaning(doc: Document, key: string, field: string, value: Option<Value>)
    ensures Put(doc, key, field, value).Some? <==> (key in doc ==> doc[key].Standard?)
    ensures Put(doc, key, field, value).Some? ==>
      var edited := Put(doc, key, field, value).value;
      && (forall s :: s in edited <==> s in doc || s == key)
      && (forall s :: s in doc && s != key ==> edited[s] == doc[s])
      && edited[key].Standard? && At(edited, key, field) == value
      && (forall f :: f != field ==> At(edited, key, f) == At(doc, key, f))
  {
  }

  /** Sets `[app].enabled`. */
  function WithEnabled(doc: Document, app: string, enabled: bool): Option<Document> {
    Put(doc, app, "enabled", Some(Bool(enabled)))
  }

  /** Sets or clears `[app].lark_app`. */
  function WithBinding(doc: Document, app: string, binding: Option<string>): Option<Document> {
    Put(doc, app, "lark_app", if binding.Some? then Some(Str(binding.value)) else None)
  }

  function Entry(appId: string, appSecret: string, baseUrl: string): Value {
    Table(map["app_id" := Str(appId), "app_secret" := Str(appSecret), "base_url" := Str(baseUrl)])
  }

  /** Writes `[lark-apps.<name>]`; None where the editor panics because lark-apps is no standard table. */
  function WithEntry(doc: Document, name: string, entry: Value): Option<Document> {
    Put(doc, REGISTRY, name, Some(entry))
  }

  /** Removes `[lark-apps.<name>]`, and the registry when nothing is left; None when there was none. */
  function WithoutEntry(doc: Document, name: string): Option<Document> {
    if REGISTRY in doc && doc[REGISTRY].Standard? && name in doc[REGISTRY].entries then
      var rest := doc[REGISTRY].entries - {name};
      Some(if rest == map[] then doc - {REGISTRY} else doc[REGISTRY := Standard(rest)])
    else None
  }

  /** Some of the trimmed text unless that is empty. */
  function NonBlank(text: Option<string>): Option<string> {
    if text.Some? && Trim(text.value) != "" then Some(Trim(text.value)) else None
  }

  function Admins(admins: seq<string>): seq<Value> {
    if admins == [] then []
    else if Trim(Last(admins)) == "" then Admins(Init(admins))
    else Admins(Init(admins)) + [Str(Trim(Last(admins)))]
  }

  function SetOrRemove(entries: map<string, Value>, key: string, text: Option<string>): map<string, Value> {
    if NonBlank(text).Some? then entries[key := Str(NonBlank(text).value)] else entries - {key}
  }

  /** Binds the console's sign-in; None where the editor panics because console is no standard table. */
  function WithConsole(
    doc: Document, larkApp: string, admins: seq<string>, redirectUri: Option<string>, scope: Option<string>
  ): Option<Document> {
    var entries := Editable(doc, CONSOLE);
    if entries.None? then None
    else
      var bound := entries.value["lark_app" := Str(larkApp)]["admins" := Arr(Admins(admins))];
      Some(doc[CONSOLE := Standard(SetOrRemove(SetOrRemove(bound, "redirect_uri", redirectUri), "scope", scope))])
  }

  function WithoutConsole(doc: Document): Document {
    if CONSOLE in doc && doc[CONSOLE].Standard?
    then doc[CONSOLE := Standard(doc[CONSOLE].entries - {"lark_app"})]
    else doc
  }

  /** Removing an entry removes it, and the registry's header when nothing is left under it; nothing else. */
  lemma WithoutEntryMeaning(doc: Document, name: string)
    ensures WithoutEntry(doc, name).Some? <==>
      REGISTRY in doc && doc[REGISTRY].Standard? && name in doc[REGISTRY].entries
    ensures WithoutEntry(doc, name).Some? ==>
      var edited := WithoutEntry(doc, name).value;
      && (forall s :: s != REGISTRY ==> (s in edited <==> s in doc) && (s in doc ==> edited[s] == doc[s]))
      && At(edited, REGISTRY, name) == None
      && (forall other :: other != name ==> At(edited, REGISTRY, other) == At(doc, REGISTRY, other))
      && (REGISTRY in edited <==> exists other :: other in doc[REGISTRY].entries && other != name)
  {
    if WithoutEntry(doc, name).Some? {
      var apps := doc[REGISTRY].entries;
      assert forall other :: other in apps - {name} <==> other in apps && other != name;
      if other :| other in apps && other != name {
        assert other in apps - {name};
      }
    }
  }

  /** Binding the console's sign-in writes its four fields, the optional ones only if given, and nothing else. */
  lemma WithConsoleMeaning(
    doc: Document, name: string, admins: seq<string>, redirectUri: Option<string>, scope: Option<string>)
    ensures WithConsole(doc, name, admins, redirectUri, scope).Some? <==> (CONSOLE in doc ==> doc[CONSOLE].Standard?)
    ensures WithConsole(doc, name, admins, redirectUri, scope).Some? ==>
      var edited := WithConsole(doc, name, admins, redirectUri, scope).value;
      && (forall s :: s != CONSOLE ==> (s in edited <==> s in doc) && (s in doc ==> edited[s] == doc[s]))
      && At(edited, CONSOLE, "lark_app") == Some(Str(name))
      && At(edited, CONSOLE, "admins") == Some(Arr(Admins(admins)))
      && At(edited, CONSOLE, "redirect_uri") == Given(redirectUri) && At(edited, CONSOLE, "scope") == Given(scope)
      && (forall f :: f !in {"lark_app", "admins", "redirect_uri", "scope"} ==>
            At(edited, CONSOLE, f) == At(doc, CONSOLE, f))
  {
  }

  /** A text that is there and not blank, trimmed. */
  function Given(text: Option<string>): Option<Value> {
    match text
    case None => None
    case Some(t) => if Trim(t) == "" then None else Some(Str(Trim(t)))
  }

  /** The administrators written: those that are not blank, trimmed, in order. */
  lemma {:induction false} AdminsMeaning(before: seq<string>, admin: string, after: seq<string>)
    ensures Admins(before + [admin] + after) ==
      Admins(before) + (if Given(Some(admin)).Some? then [Given(Some(admin)).value] else []) + Admins(after)
  {
    if after == [] {
      assert before + [admin] + after == before + [admin] && Init(before + [admin]) == before;
    } else {
      var all := before + [admin] + after;
      assert Init(all) == before + [admin] + Init(after) && Last(all) == Last(after);
      AdminsMeaning(before, admin, Init(after));
    }
  }

  /** Unbinding removes the binding from a standard table, and does nothing at all otherwise. */
  lemma WithoutConsoleMeaning(doc: Document)
    ensures var edited := WithoutConsole(doc);
      if CONSOLE in doc && doc[CONSOLE].Standard? then
        && (forall s :: s in edited <==> s in doc) && (forall s :: s in doc && s != CONSOLE ==> edited[s] == doc[s])
        && edited[CONSOLE].Standard? && At(edited, CONSOLE, "lark_app") == None
        && (forall f :: f != "lark_app" ==> At(edited, CONSOLE, f) == At(doc, CONSOLE, f))
      else edited == doc
  {
  }

  // ---- which keys an edit moves ----------------------------------------------------

  /** A write to one section other than the registry leaves every other app's key alone. */
  lemma PutKeepsOtherKeys(doc: Document, key: string, field: string, value: Option<Value>, other: string)
    requires Put(doc, key, field, value).Some? && other != key && key != REGISTRY
    ensures KeyOf(Put(doc, key, field, value).value, other) == KeyOf(doc, other)
  {
  }

  /**
   Enabling or disabling an app moves at most that app's key, on every document, exactly
   because no app is registered under the name of the registry table.
   */
  lemma EnableMovesOnlyItsApp(app: string)
    ensures (forall doc, enabled, other ::
        other != app && WithEnabled(doc, app, enabled).Some? ==>
          KeyOf(WithEnabled(doc, app, enabled).value, other) == KeyOf(doc, other))
      <==> app != REGISTRY
  {
    if app != REGISTRY {
      forall doc, enabled, other | other != app && WithEnabled(doc, app, enabled).Some? {
        PutKeepsOtherKeys(doc, app, "enabled", Some(Bool(enabled)), other);
      }
    } else {
      var doc: Document := map["linear" := Standard(map["lark_app" := Str("enabled")])];
      var edited := WithEnabled(doc, app, true);
      assert KeyOf(doc, "linear").larkApp == None;
      assert edited.value["linear"] == doc["linear"];
      assert KeyOf(edited.value, "linear").larkApp == Some(Bool(true));
    }
  }

  /** The flag takes effect, and moves the app's own key exactly when it was not set that way. */
  lemma EnableMovesKeyIffNew(doc: Document, app: string, enabled: bool)
    requires WithEnabled(doc, app, enabled).Some?
    ensures var edited := WithEnabled(doc, app, enabled).value;
      && KeyOf(edited, app).Enabled() == enabled
      && (KeyOf(edited, app) == KeyOf(doc, app)
          <==> GetFrom(Lookup(doc, app), "enabled") == Some(Bool(enabled)))
  {
    var edited := WithEnabled(doc, app, enabled).value;
    if GetFrom(Lookup(doc, app), "enabled") == Some(Bool(enabled)) {
      assert edited[app].entries == doc[app].entries;
      assert edited == doc;
    } else {
      assert GetFrom(Lookup(edited, app), "enabled") == Some(Bool(enabled));
    }
  }

  /** Binding an app to a registered entry makes exactly that entry part of its key, and of no other. */
  lemma BindTakesEffect(doc: Document, app: string, name: string)
    requires app != REGISTRY && WithBinding(doc, app, Some(name)).Some?
    ensures var edited := WithBinding(doc, app, Some(name)).value;
      && KeyOf(edited, app).larkApp == GetFrom(Lookup(doc, REGISTRY), name)
      && (forall other :: other != app ==> KeyOf(edited, other) == KeyOf(doc, other))
      && WithBinding(edited, app, None).Some?
      && KeyOf(WithBinding(edited, app, None).value, app).larkApp == None
  {
    forall other | other != app {
      PutKeepsOtherKeys(doc, app, "lark_app", Some(Str(name)), other);
    }
  }

  predicate BoundTo(doc: Document, app: string, name: string) {
    GetFrom(Lookup(doc, app), "lark_app") == Some(Str(name))
  }

  /** Writing a registry entry moves an app's key exactly when the app is bound to it and its value changes. */
  lemma UpsertMovesBoundApps(doc: Document, name: string, entry: Value, app: string)
    requires app != REGISTRY && WithEntry(doc, name, entry).Some?
    ensures KeyOf(WithEntry(doc, name, entry).value, app) != KeyOf(doc, app)
      <==> BoundTo(doc, app, name) && GetFrom(Lookup(doc, REGISTRY), name) != Some(entry)
  {
  }

  /** Removing a registry entry moves the keys of exactly the apps bound to it. */
  lemma RemoveMovesBoundApps(doc: Document, name: string, app: string)
    requires app != REGISTRY && WithoutEntry(doc, name).Some?
    ensures KeyOf(WithoutEntry(doc, name).value, app) != KeyOf(doc, app) <==> BoundTo(doc, app, name)
  {
    var rest := doc[REGISTRY].entries - {name};
    if rest == map[] {
      forall other | other != name ensures other !in doc[REGISTRY].entries {
        assert other !in rest;
      }
    }
  }

  /** An empty registry header, which removal drops. */
  predicate BareRegistry(doc: Document) {
    REGISTRY in doc && doc[REGISTRY] == Standard(map[])
  }

  /**
   Removing a freshly added entry restores the registry, and the whole document exactly when it
   did not hold an empty registry header.
   */
  lemma RemoveUndoesUpsert(doc: Document, name: string, entry: Value)
    requires WithEntry(doc, name, entry).Some? && GetFrom(Lookup(doc, REGISTRY), name).None?
    ensures var added := WithEntry(doc, name, entry).value;
      && WithoutEntry(added, name).Some?
      && (forall other :: GetFrom(Lookup(WithoutEntry(added, name).value, REGISTRY), other)
                          == GetFrom(Lookup(doc, REGISTRY), other))
      && (WithoutEntry(added, name).value == doc <==> !BareRegistry(doc))
  {
    var before := Editable(doc, REGISTRY).value;
    var added := WithEntry(doc, name, entry).value;
    assert added[REGISTRY].entries - {name} == before;
    if REGISTRY !in doc {
      assert added - {REGISTRY} == doc;
    } else if before != map[] {
      assert added[REGISTRY := Standard(before)] == doc;
    }
  }

  /** Binding and unbinding the console's sign-in moves the key of no app, unless one is called "console". */
  lemma ConsoleMovesNoApp(app: string)
    ensures (forall doc, name, admins, redirectUri, scope ::
        WithConsole(doc, name, admins, redirectUri, scope).Some? ==>
          KeyOf(WithConsole(doc, name, admins, redirectUri, scope).value, app) == KeyOf(doc, app)
          && KeyOf(WithoutConsole(doc), app) == KeyOf(doc, app))
      <==> app != CONSOLE
  {
    if app == CONSOLE {
      var doc: Document := map[];
      var edited := WithConsole(doc, "main", [], None, None);
      assert KeyOf(doc, app).section == None && KeyOf(edited.value, app).section.Some?;
    }
  }

  // ---- building an app's state from the configuration --------------------------------

  /** A LarkConfig: the environment's values, overlaid step by step. */
  datatype LarkConfig = LarkConfig(
    webhookUrl: string, appId: Option<string>, appSecret: Option<string>,
    verificationToken: Option<string>, encryptKey: Option<string>, baseUrl: string)

  datatype Overlay = Overlay(
    webhookUrl: Option<string>, appId: Option<string>, appSecret: Option<string>,
    verificationToken: Option<string>, encryptKey: Option<string>, baseUrl: Option<string>)

  datatype LarkApp = LarkApp(appId: string, appSecret: string, baseUrl: string)

  /** The `[github]` section and the top level, as they deserialize. */
  datatype Section = Section(larkApp: Option<string>, webhookSecret: Option<string>, lark: Overlay)

  datatype TopLevel = TopLevel(larkApps: map<string, LarkApp>, github: Section)

  datatype Bot = Bot(appId: string, appSecret: string, baseUrl: string)

  datatype AppState = AppState(webhookSecret: string, bot: Option<Bot>)

  datatype Build = Built(state: AppState) | Malformed | NoSuchApp(name: string)

  const DEFAULT_BASE_URL := "https://open.larksuite.com"
  const NO_OVERLAY := Overlay(None, None, None, None, None, None)

  /** An optional string field: absent, a string, or an error. */
  function ReadText(table: Value, key: string): Result<Option<string>> {
    match Get(table, key)
    case None => Ok(None)
    case Some(Str(text)) => Ok(Some(text))
    case Some(_) => Err
  }

  predicate TextFields(v: Value, keys: set<string>) {
    v.Table? && forall k :: k in keys ==> ReadText(v, k).Ok?
  }

  const APP_FIELDS := {"app_id", "app_secret", "base_url"}
  const OVERLAY_FIELDS := {"webhook_url", "app_id", "app_secret", "verification_token", "encrypt_key", "base_url"}

  function Field(v: Option<Value>, key: string): Option<string> {
    match GetFrom(v, key)
    case Some(Str(text)) => Some(text)
    case _ => None
  }

  function AppOf(entry: Option<Value>): LarkApp {
    LarkApp(Field(entry, "app_id").UnwrapOr(""), Field(entry, "app_secret").UnwrapOr(""),
            Field(entry, "base_url").UnwrapOr(DEFAULT_BASE_URL))
  }

  function OverlayOf(v: Option<Value>): Overlay {
    Overlay(Field(v, "webhook_url"), Field(v, "app_id"), Field(v, "app_secret"),
            Field(v, "verification_token"), Field(v, "encrypt_key"), Field(v, "base_url"))
  }

  /** The registry: every entry has to be a table whose credential fields are strings. */
  function ReadRegistry(registry: Option<Value>): Result<map<string, LarkApp>> {
    match registry
    case None => Ok(map[])
    case Some(Table(apps)) =>
      if forall name :: name in apps ==> TextFields(apps[name], APP_FIELDS)
      then Ok(map name | name in apps :: AppOf(Some(apps[name]))) else Err
    case Some(_) => Err
  }

  function ReadSection(section: Option<Value>): Result<Section> {
    if section.None? then Ok(Section(None, None, NO_OVERLAY))
    else if !TextFields(section.value, {"lark_app", "webhook_secret"}) then Err
    else
      var lark := Get(section.value, "lark");
      if lark.Some? && !TextFields(lark.value, OVERLAY_FIELDS) then Err
      else Ok(Section(Field(section, "lark_app"), Field(section, "webhook_secret"), OverlayOf(lark)))
  }

  /** The whole text, deserialized: one bad entry or field anywhere in the two sections is an error. */
  function ReadTopLevel(config: Option<Document>): Result<TopLevel> {
    if config.None? then Err
    else
      var larkApps, github := ReadRegistry(Lookup(config.value, REGISTRY)), ReadSection(Lookup(config.value, "github"));
      if larkApps.Err? || github.Err? then Err else Ok(TopLevel(larkApps.value, github.value))
  }

  function Applied(lark: LarkConfig, app: LarkApp): LarkConfig {
    lark.(appId := Some(app.appId), appSecret := Some(app.appSecret), baseUrl := app.baseUrl)
  }

  function Overlaid(lark: LarkConfig, t: Overlay): LarkConfig {
    LarkConfig(
      t.webhookUrl.UnwrapOr(lark.webhookUrl), t.appId.Or(lark.appId), t.appSecret.Or(lark.appSecret),
      t.verificationToken.Or(lark.verificationToken), t.encryptKey.Or(lark.encryptKey),
      t.baseUrl.UnwrapOr(lark.baseUrl))
  }

  function StateOf(lark: LarkConfig, secret: string): AppState {
    AppState(secret, if lark.appId.Some? && lark.appSecret.Some?
                     then Some(Bot(lark.appId.value, lark.appSecret.value, lark.baseUrl)) else None)
  }

  /** What reading the whole configuration yields: later sources win over earlier ones. */
  function ReadState(config: Option<Document>, env: LarkConfig, envSecret: string): Build {
    var top := ReadTopLevel(config);
    if top.Err? then Malformed
    else
      var section := top.value.github;
      if section.larkApp.Some? && section.larkApp.value !in top.value.larkApps then NoSuchApp(section.larkApp.value)
      else
        var registered :=
          if section.larkApp.Some? then Applied(env, top.value.larkApps[section.larkApp.value]) else env;
        Built(StateOf(Overlaid(registered, section.lark), section.webhookSecret.UnwrapOr(envSecret)))
  }

  method ApplyLarkApp(lark: LarkConfig, app: LarkApp) returns (r: LarkConfig)
    ensures r == Applied(lark, app)
  {
    r := lark;
    r := r.(appId := Some(app.appId));
    r := r.(appSecret := Some(app.appSecret));
    r := r.(baseUrl := app.baseUrl);
  }

  /** Overlays the fields that are present, leaving the others. */
  method ApplyOverlay(lark: LarkConfig, t: Overlay) returns (r: LarkConfig)
    ensures r == Overlaid(lark, t)
  {
    r := lark;
    if t.webhookUrl.Some? {
      r := r.(webhookUrl := t.webhookUrl.value);
    }
    if t.appId.Some? {
      r := r.(appId := t.appId);
    }
    if t.appSecret.Some? {
      r := r.(appSecret := t.appSecret);
    }
    if t.verificationToken.Some? {
      r := r.(verificationToken := t.verificationToken);
    }
    if t.encryptKey.Some? {
      r := r.(encryptKey := t.encryptKey);
    }
    if t.baseUrl.Some? {
      r := r.(baseUrl := t.baseUrl.value);
    }
  }

  /** Builds the github app's state from the whole configuration, overwriting the environment's values step by step. */
  method FromToml(config: Option<Document>, env: LarkConfig, envSecret: string) returns (r: Build)
    ensures r == ReadState(config, env, envSecret)
  {
    var top := ReadTopLevel(config);
    if top.Err? {
      return Malformed;
    }
    var section := top.value.github;
    var lark := env;
    if section.larkApp.Some? {
      if section.larkApp.value !in top.value.larkApps {
        return NoSuchApp(section.larkApp.value);
      }
      lark := ApplyLarkApp(lark, top.value.larkApps[section.larkApp.value]);
    }
    lark := ApplyOverlay(lark, section.lark);
    var secret := envSecret;
    if section.webhookSecret.Some? {
      secret := section.webhookSecret.value;
    }
    var bot := None;
    if lark.appId.Some? && lark.appSecret.Some? {
      bot := Some(Bot(lark.appId.value, lark.appSecret.value, lark.baseUrl));
    }
    return Built(AppState(secret, bot));
  }

  // ---- where the values come from ---------------------------------------------------------------

  /** A table in which these fields, where there, are strings. */
  predicate TextTable(v: Value, fields: set<string>) {
    v.Table? && forall k :: k in fields && k in v.entries ==> v.entries[k].Str?
  }

  predicate IsValue(doc: Document, section: string, v: Value) {
    section in doc && (doc[section] == Plain(v) || (v.Table? && doc[section] == Standard(v.entries)))
  }

  /** The registry deserializes exactly if it is absent, or a table of tables whose three fields are strings. */
  lemma RegistryReadsIff(doc: Document)
    ensures ReadRegistry(Lookup(doc, REGISTRY)).Ok? <==>
      ("lark-apps" in doc ==> exists apps ::
         (IsValue(doc, "lark-apps", Table(apps))
          && forall name :: name in apps ==> TextTable(apps[name], {"app_id", "app_secret", "base_url"})))
  {
    if "lark-apps" in doc {
      var v := ValueOf(doc["lark-apps"]);
      assert IsValue(doc, "lark-apps", v);
      if v.Table? {
        forall name | name in v.entries
          ensures TextFields(v.entries[name], APP_FIELDS) <==>
            TextTable(v.entries[name], {"app_id", "app_secret", "base_url"})
        {
          TextFieldsIff(v.entries[name], {"app_id", "app_secret", "base_url"});
        }
      }
    }
  }

  lemma TextFieldsIff(v: Value, fields: set<string>)
    ensures TextFields(v, fields) <==> TextTable(v, fields)
  {
    if v.Table? {
      forall k | k in fields ensures ReadText(v, k).Ok? <==> (k in v.entries ==> v.entries[k].Str?) {
      }
    }
  }

  /** The github section deserializes exactly if it is absent, or a table whose known fields have their types. */
  lemma SectionReadsIff(section: Option<Value>)
    ensures ReadSection(section).Ok? <==>
      (section.Some? ==>
        && TextTable(section.value, {"lark_app", "webhook_secret"})
        && ("lark" in section.value.entries ==>
              TextTable(section.value.entries["lark"],
                        {"webhook_url", "app_id", "app_secret", "verification_token", "encrypt_key", "base_url"})))
  {
    if section.Some? {
      TextFieldsIff(section.value, {"lark_app", "webhook_secret"});
      if section.value.Table? && "lark" in section.value.entries {
        TextFieldsIff(section.value.entries["lark"], OVERLAY_FIELDS);
      }
    }
  }

  /** The first of two texts that is there. */
  function First(a: Option<string>, b: Option<string>): Option<string> {
    match a
    case Some(_) => a
    case None => b
  }

  /** The string at `[section].field`, if there is one. */
  function TextAt(doc: Document, section: string, field: string): Option<string> {
    match At(doc, section, field)
    case Some(Str(text)) => Some(text)
    case _ => None
  }

  /** The string at `[section.table].field`, if there is one. */
  function TextBelow(doc: Document, section: string, table: string, field: string): Option<string> {
    match At(doc, section, table)
    case Some(Table(entries)) => if field in entries && entries[field].Str? then Some(entries[field].text) else None
    case _ => None
  }

  /** What the registered app that the github section names has for a field; none if it names none. */
  function Registered(doc: Document, field: string, default: string): Option<string> {
    match TextAt(doc, "github", "lark_app")
    case None => None
    case Some(name) => First(TextBelow(doc, "lark-apps", name, field), Some(default))
  }

  lemma OverlayReads(doc: Document, field: string)
    ensures Field(GetFrom(Lookup(doc, "github"), "lark"), field) == TextBelow(doc, "github", "lark", field)
    ensures Field(Lookup(doc, "github"), field) == TextAt(doc, "github", field)
  {
  }

  lemma RegisteredReads(doc: Document, name: string)
    requires ReadRegistry(Lookup(doc, REGISTRY)).Ok? && name in ReadRegistry(Lookup(doc, REGISTRY)).value
    ensures var app := ReadRegistry(Lookup(doc, REGISTRY)).value[name];
      && app.appId == First(TextBelow(doc, "lark-apps", name, "app_id"), Some("")).value
      && app.appSecret == First(TextBelow(doc, "lark-apps", name, "app_secret"), Some("")).value
      && app.baseUrl == First(TextBelow(doc, "lark-apps", name, "base_url"), Some("https://open.larksuite.com")).value
  {
    RegistryKnows(Lookup(doc, REGISTRY), Some(name));
  }

  /** Field by field, an overlay wins over what it is laid on. */
  lemma OverlayWins(lark: LarkConfig, t: Overlay)
    ensures var r := Overlaid(lark, t);
      && Some(r.webhookUrl) == First(t.webhookUrl, Some(lark.webhookUrl))
      && r.appId == First(t.appId, lark.appId) && r.appSecret == First(t.appSecret, lark.appSecret)
      && r.verificationToken == First(t.verificationToken, lark.verificationToken)
      && r.encryptKey == First(t.encryptKey, lark.encryptKey)
      && Some(r.baseUrl) == First(t.baseUrl, Some(lark.baseUrl))
  {
  }

  /**
   Which value the built app uses: each credential from the section's own table if it is there, else from
   the registered app that the section names, else from the environment; a bot only with both credentials.
   */
  lemma BuiltValues(doc: Document, env: LarkConfig, envSecret: string)
    requires ReadState(Some(doc), env, envSecret).Built?
    ensures var state := ReadState(Some(doc), env, envSecret).state;
      var id := First(TextBelow(doc, "github", "lark", "app_id"), First(Registered(doc, "app_id", ""), env.appId));
      var secret := First(
        TextBelow(doc, "github", "lark", "app_secret"), First(Registered(doc, "app_secret", ""), env.appSecret));
      var url := First(
        TextBelow(doc, "github", "lark", "base_url"),
        First(Registered(doc, "base_url", "https://open.larksuite.com"), Some(env.baseUrl)));
      && Some(state.webhookSecret) == First(TextAt(doc, "github", "webhook_secret"), Some(envSecret))
      && state.bot == if id.Some? && secret.Some? then Some(Bot(id.value, secret.value, url.value)) else None
  {
    OverlayReads(doc, "app_id");
    OverlayReads(doc, "app_secret");
    OverlayReads(doc, "base_url");
    OverlayReads(doc, "lark_app");
    OverlayReads(doc, "webhook_secret");
    var top := ReadTopLevel(Some(doc)).value;
    var section := top.github;
    var registered := if section.larkApp.Some? then Applied(env, top.larkApps[section.larkApp.value]) else env;
    if section.larkApp.Some? {
      RegisteredReads(doc, section.larkApp.value);
    }
    OverlayWins(registered, section.lark);
  }

  // ---- the change key as a rebuild key ---------------------------------------------------------

  /** The registry deserializes, whichever entries anybody uses. */
  predicate RegistryWellTyped(config: Option<Document>) {
    config.Some? && ReadRegistry(Lookup(config.value, REGISTRY)).Ok?
  }

  /** The app's section names a registry entry that is not there. */
  predicate Dangling(config: Option<Document>, app: string) {
    config.Some?
    && Field(Lookup(config.value, app), "lark_app").Some?
    && GetFrom(Lookup(config.value, REGISTRY), Field(Lookup(config.value, app), "lark_app").value).None?
  }

  /** The build ends with a missing reference exactly when everything deserializes and the named entry is missing. */
  lemma NoSuchAppIff(config: Option<Document>, env: LarkConfig, envSecret: string)
    ensures ReadState(config, env, envSecret).NoSuchApp? <==>
      RegistryWellTyped(config) && ReadSection(Lookup(config.value, "github")).Ok? && Dangling(config, "github")
  {
    if RegistryWellTyped(config) && Field(Lookup(config.value, "github"), "lark_app").Some? {
      RegistryKnows(Lookup(config.value, REGISTRY), Field(Lookup(config.value, "github"), "lark_app"));
    }
  }

  /** A well-typed registry knows exactly its entries, and reads each from its own table alone. */
  lemma RegistryKnows(registry: Option<Value>, name: Option<string>)
    requires ReadRegistry(registry).Ok? && name.Some?
    ensures name.value in ReadRegistry(registry).value <==> GetFrom(registry, name.value).Some?
    ensures name.value in ReadRegistry(registry).value ==>
      ReadRegistry(registry).value[name.value] == AppOf(GetFrom(registry, name.value))
  {
  }

  /** The section of a change key deserializes and names no missing entry. */
  predicate KeyBuilds(key: ChangeKey) {
    && ReadSection(key.section).Ok?
    && (ReadSection(key.section).value.larkApp.Some? ==> key.larkApp.Some?)
  }

  /** A build succeeds exactly when the app's own key allows it and the whole registry deserializes. */
  lemma BuiltIff(config: Option<Document>, env: LarkConfig, envSecret: string)
    ensures ReadState(config, env, envSecret).Built? <==>
      RegistryWellTyped(config) && KeyBuilds(Compute(config, "github"))
  {
    if RegistryWellTyped(config) {
      var github := Lookup(config.value, "github");
      if ReadSection(github).Ok? && ReadSection(github).value.larkApp.Some? {
        RegistryKnows(Lookup(config.value, REGISTRY), Field(github, "lark_app"));
      }
    }
  }

  /** What a successful build yields is determined by the change key alone. */
  lemma BuiltFromKey(c: Option<Document>, d: Option<Document>, env: LarkConfig, envSecret: string)
    requires Compute(c, "github") == Compute(d, "github")
    requires ReadState(c, env, envSecret).Built? && ReadState(d, env, envSecret).Built?
    ensures ReadState(c, env, envSecret) == ReadState(d, env, envSecret)
  {
    BuiltIff(c, env, envSecret);
    BuiltIff(d, env, envSecret);
    var github := Lookup(c.value, "github");
    if ReadSection(github).value.larkApp.Some? {
      RegistryKnows(Lookup(c.value, REGISTRY), Field(github, "lark_app"));
      RegistryKnows(Lookup(d.value, REGISTRY), Field(github, "lark_app"));
    }
  }

  predicate SameOutcome(a: Build, b: Build) {
    a == b || (!a.Built? && !b.Built?)
  }

  /**
   The change key is a sound rebuild key of the reader: configurations with equal keys build the same
   state, or both fail, exactly when their registries both deserialize, or neither does, or the section
   fails to build anyway. Nothing else in the configuration matters.
   */
  lemma EqualKeysBuildAlike(c: Option<Document>, d: Option<Document>, env: LarkConfig, envSecret: string)
    requires Compute(c, "github") == Compute(d, "github")
    ensures SameOutcome(ReadState(c, env, envSecret), ReadState(d, env, envSecret)) <==>
      (RegistryWellTyped(c) == RegistryWellTyped(d) || !KeyBuilds(Compute(c, "github")))
  {
    BuiltIff(c, env, envSecret);
    BuiltIff(d, env, envSecret);
    if ReadState(c, env, envSecret).Built? && ReadState(d, env, envSecret).Built? {
      BuiltFromKey(c, d, env, envSecret);
    }
  }

  /** An ill-typed registry entry that the app does not use fails its next build without moving its key. */
  lemma UnusedEntryCanFailBuild(env: LarkConfig, envSecret: string) returns (c: Document, d: Document)
    ensures KeyOf(c, "github") == KeyOf(d, "github") && KeyOf(c, "github").Enabled()
    ensures ReadState(Some(c), env, envSecret).Built? && ReadState(Some(d), env, envSecret) == Malformed
  {
    var section := Standard(map["enabled" := Bool(true)]);
    c := map["github" := section];
    d := map["github" := section, REGISTRY := Standard(map["spare" := Table(map["app_id" := Number(1)])])];
    var apps := ValueOf(d[REGISTRY]);
    assert !TextFields(apps.entries["spare"], APP_FIELDS) by {
      assert ReadText(apps.entries["spare"], "app_id").Err?;
    }
  }
}
