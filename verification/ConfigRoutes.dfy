/**
 The console's configuration requests, over the control plane's live configuration and the file it is
 written to first. Requests are handled one at a time. The theorems say when the file agrees with the
 live configuration, which requests open a console that asks for sign-in, and which leave an app with
 a reference to nothing.
 */
module ConfigRoutes {
  import opened Sequences
  import opened Text
  import opened Config

  datatype Response = Done | NotFound | BadRequest | Internal | Panicked

  predicate IsNameChar(c: char) {
    'a' <= c <= 'z' || 'A' <= c <= 'Z' || '0' <= c <= '9' || c == '-' || c == '_'
  }

  predicate ValidName(name: string) {
    name != "" && forall c :: c in name ==> IsNameChar(c)
  }

  function NormalizeBaseUrl(raw: Option<string>): string {
    NonBlank(raw).UnwrapOr(DEFAULT_BASE_URL)
  }

  /** Whether `[lark-apps.<name>]` exists. */
  predicate RegistryHas(config: Option<Document>, name: string) {
    config.Some? && GetFrom(Lookup(config.value, REGISTRY), name).Some?
  }

  /** The `[console]` section deserializes. */
  predicate ConsoleWellTyped(config: Option<Document>) {
    config.Some? && match Lookup(config.value, CONSOLE)
      case None => true
      case Some(console) =>
        && TextFields(console, {"lark_app", "redirect_uri", "scope"})
        && match Get(console, "admins")
           case None => true
           case Some(Arr(items)) => forall i :: 0 <= i < |items| ==> items[i].Str?
           case Some(_) => false
  }

  predicate Credentials(registry: Option<Value>, name: string) {
    && Field(GetFrom(registry, name), "app_id").UnwrapOr("") != ""
    && Field(GetFrom(registry, name), "app_secret").UnwrapOr("") != ""
  }

  /** Whether `name` is a registered Lark app that carries credentials. */
  predicate HasCredentials(config: Option<Document>, name: string) {
    && ConsoleWellTyped(config) && RegistryWellTyped(config)
    && Credentials(Lookup(config.value, REGISTRY), name)
  }

  /** Who the console's sign-in is bound to. */
  function BoundName(config: Option<Document>): Option<string> {
    if config.Some? then Field(Lookup(config.value, CONSOLE), "lark_app") else None
  }

  /** The console asks for sign-in; it is open to everybody otherwise. */
  predicate Resolves(config: Option<Document>) {
    BoundName(config).Some? && HasCredentials(config, BoundName(config).value)
  }

  // ---- requests ----------------------------------------------------------------------------

  datatype Request =
    | SetEnabled(app: string, enabled: bool)
    | SetBinding(app: string, larkApp: Option<string>)
    | UpsertApp(name: string, appId: string, appSecret: string, baseUrl: Option<string>, verified: bool)
    | DeleteApp(name: string)
    | PutAuth(boundApp: string, admins: seq<string>, redirectUri: Option<string>, scope: Option<string>)
    | DeleteAuth
    | PutText(text: Option<Document>)

  /** Either the text a request asks to write, or its rejection. */
  datatype Verdict = Write(text: Option<Document>) | Reject(response: Response)

  function WriteOr(edited: Option<Document>, response: Response): Verdict {
    if edited.Some? then Write(edited) else Reject(response)
  }

  function Judged(manifests: set<string>, config: Option<Document>, req: Request): Verdict {
    match req
    case SetEnabled(app, enabled) =>
      if app !in manifests then Reject(NotFound)
      else if config.None? then Reject(Internal)
      else WriteOr(WithEnabled(config.value, app, enabled), BadRequest)
    case SetBinding(app, larkApp) =>
      var binding := NonBlank(larkApp);
      if app !in manifests then Reject(NotFound)
      else if binding.Some? && !RegistryHas(config, binding.value) then Reject(BadRequest)
      else if config.None? then Reject(Internal)
      else WriteOr(WithBinding(config.value, app, binding), BadRequest)
    case UpsertApp(name, appId, appSecret, baseUrl, verified) =>
      if !ValidName(name) || appId == "" || appSecret == "" || !verified then Reject(BadRequest)
      else if config.None? then Reject(Internal)
      else WriteOr(WithEntry(config.value, name, Entry(appId, appSecret, NormalizeBaseUrl(baseUrl))), Panicked)
    case DeleteApp(name) =>
      if config.None? then Reject(Internal) else WriteOr(WithoutEntry(config.value, name), NotFound)
    case PutAuth(boundApp, admins, redirectUri, scope) =>
      if Trim(boundApp) == "" || !HasCredentials(config, Trim(boundApp)) then Reject(BadRequest)
      else WriteOr(WithConsole(config.value, Trim(boundApp), admins, redirectUri, scope), Panicked)
    case DeleteAuth =>
      if config.None? then Reject(Internal) else Write(Some(WithoutConsole(config.value)))
    case PutText(text) => WriteOr(text, BadRequest)
  }

  /** A file write completes, is refused before it touches the file, or fails with something else left in it. */
  datatype Disk = Written | Refused | Torn(left: Option<Document>)

  /** The live configuration and the file, as far as each is TOML. */
  datatype Host = Host(config: Option<Document>, file: Option<Document>)

  /** Writes a text to the file, then broadcasts it. */
  function Stored(h: Host, text: Option<Document>, disk: Disk): (Host, Response) {
    match disk
    case Written => (Host(text, text), Done)
    case Refused => (h, Internal)
    case Torn(left) => (h.(file := left), Internal)
  }

  function Handled(manifests: set<string>, h: Host, req: Request, disk: Disk): (Host, Response) {
    match Judged(manifests, h.config, req)
    case Write(text) => Stored(h, text, disk)
    case Reject(response) => (h, response)
  }

  /** A request and how its file write goes, if it comes to one. */
  datatype Served = Served(request: Request, disk: Disk)

  function After(manifests: set<string>, h: Host, served: seq<Served>): Host {
    if served == [] then h
    else Handled(manifests, After(manifests, h, Init(served)), Last(served).request, Last(served).disk).0
  }

  // ---- the handlers ------------------------------------------------------------------------

  /** Writes the console binding into an edited document, creating the section if absent. */
  method WriteConsole(
    original: Document, larkApp: string, admins: seq<string>, redirectUri: Option<string>, scope: Option<string>
  ) returns (edited: Option<Document>)
    ensures edited == WithConsole(original, larkApp, admins, redirectUri, scope)
  {
    var doc := original;
    if CONSOLE !in doc {
      doc := doc[CONSOLE := Standard(map[])];
    }
    if !doc[CONSOLE].Standard? {
      return None;
    }
    var console := doc[CONSOLE].entries["lark_app" := Str(larkApp)];
    var kept := [];
    for i := 0 to |admins|
      invariant kept == Admins(admins[..i])
    {
      assert Init(admins[..i + 1]) == admins[..i];
      var admin := Trim(admins[i]);
      if admin != "" {
        kept := kept + [Str(admin)];
      }
    }
    assert admins[..|admins|] == admins;
    console := console["admins" := Arr(kept)];
    console := SetOrRemove(console, "redirect_uri", redirectUri);
    console := SetOrRemove(console, "scope", scope);
    doc := doc[CONSOLE := Standard(console)];
    assert doc == WithConsole(original, larkApp, admins, redirectUri, scope).value;
    return Some(doc);
  }

  class ControlConfig {
    const manifests: set<string>
    var config: Option<Document>
    var file: Option<Document>

    constructor (manifests: set<string>, file: Option<Document>)
      ensures this.manifests == manifests && State() == Host(file, file)
    {
      this.manifests := manifests;
      this.file, this.config := file, file;
    }

    function State(): Host
      reads this
    {
      Host(config, file)
    }

    /** Persists a text, then broadcasts it. */
    method WriteDoc(text: Option<Document>, disk: Disk) returns (r: Response)
      modifies this`config, this`file
      ensures (State(), r) == Stored(old(State()), text, disk)
    {
      match disk {
        case Refused =>
          return Internal;
        case Torn(left) =>
          file := left;
          return Internal;
        case Written =>
          file := text;
      }
      config := text;
      return Done;
    }

    method PutConfig(text: Option<Document>, disk: Disk) returns (r: Response)
      modifies this`config, this`file
      ensures (State(), r) == Handled(manifests, old(State()), PutText(text), disk)
    {
      if text.None? {
        return BadRequest;
      }
      r := WriteDoc(text, disk);
    }

    method SetAppEnabled(app: string, enabled: bool, disk: Disk) returns (r: Response)
      modifies this`config, this`file
      ensures (State(), r) == Handled(manifests, old(State()), SetEnabled(app, enabled), disk)
    {
      if app !in manifests {
        return NotFound;
      }
      if config.None? {
        return Internal;
      }
      var doc := config.value;
      if app !in doc {
        doc := doc[app := Standard(map[])];
      }
      if !doc[app].Standard? {
        return BadRequest;
      }
      doc := doc[app := Standard(doc[app].entries["enabled" := Bool(enabled)])];
      assert doc == WithEnabled(config.value, app, enabled).value;
      r := WriteDoc(Some(doc), disk);
    }

    /** A binding must name a registered entry; a blank one clears it. */
    method SetAppLarkApp(app: string, larkApp: Option<string>, disk: Disk) returns (r: Response)
      modifies this`config, this`file
      ensures (State(), r) == Handled(manifests, old(State()), SetBinding(app, larkApp), disk)
    {
      if app !in manifests {
        return NotFound;
      }
      var binding := NonBlank(larkApp);
      if binding.Some? && !RegistryHas(config, binding.value) {
        return BadRequest;
      }
      if config.None? {
        return Internal;
      }
      var doc := config.value;
      if app !in doc {
        doc := doc[app := Standard(map[])];
      }
      if !doc[app].Standard? {
        return BadRequest;
      }
      var table := doc[app].entries;
      table := if binding.Some? then table["lark_app" := Str(binding.value)] else table - {"lark_app"};
      doc := doc[app := Standard(table)];
      assert doc == WithBinding(config.value, app, binding).value;
      r := WriteDoc(Some(doc), disk);
    }

    /** `verified`: the live credential test passed. Nothing is written unless it did. */
    method UpsertLarkApp(
      name: string, appId: string, appSecret: string, baseUrl: Option<string>, verified: bool, disk: Disk
    ) returns (r: Response)
      modifies this`config, this`file
      ensures (State(), r) ==
        Handled(manifests, old(State()), UpsertApp(name, appId, appSecret, baseUrl, verified), disk)
    {
      if !ValidName(name) || appId == "" || appSecret == "" || !verified {
        return BadRequest;
      }
      if config.None? {
        return Internal;
      }
      var doc := config.value;
      if REGISTRY !in doc {
        doc := doc[REGISTRY := Standard(map[])];
      }
      if !doc[REGISTRY].Standard? {
        return Panicked;
      }
      var entry := map["app_id" := Str(appId)];
      entry := entry["app_secret" := Str(appSecret)];
      entry := entry["base_url" := Str(NormalizeBaseUrl(baseUrl))];
      doc := doc[REGISTRY := Standard(doc[REGISTRY].entries[name := Table(entry)])];
      assert doc == WithEntry(config.value, name, Entry(appId, appSecret, NormalizeBaseUrl(baseUrl))).value;
      r := WriteDoc(Some(doc), disk);
    }

    method DeleteLarkApp(name: string, disk: Disk) returns (r: Response)
      modifies this`config, this`file
      ensures (State(), r) == Handled(manifests, old(State()), DeleteApp(name), disk)
    {
      if config.None? {
        return Internal;
      }
      var doc := config.value;
      if REGISTRY !in doc || !doc[REGISTRY].Standard? {
        return NotFound;
      }
      var apps := doc[REGISTRY].entries;
      var existed := name in apps;
      apps := apps - {name};
      doc := doc[REGISTRY := Standard(apps)];
      if apps == map[] {
        doc := doc - {REGISTRY};
      }
      if !existed {
        return NotFound;
      }
      if apps == map[] {
        assert doc == old(config).value - {REGISTRY};
      }
      r := WriteDoc(Some(doc), disk);
    }

    /** Binds the console's sign-in to a registered app with credentials. */
    method PutConsoleAuth(
      larkApp: string, admins: seq<string>, redirectUri: Option<string>, scope: Option<string>, disk: Disk
    ) returns (r: Response)
      modifies this`config, this`file
      ensures (State(), r) == Handled(manifests, old(State()), PutAuth(larkApp, admins, redirectUri, scope), disk)
    {
      var name := Trim(larkApp);
      if name == "" || !HasCredentials(config, name) {
        return BadRequest;
      }
      var doc := WriteConsole(config.value, name, admins, redirectUri, scope);
      if doc.None? {
        return Panicked;
      }
      r := WriteDoc(doc, disk);
    }

    method DeleteConsoleAuth(disk: Disk) returns (r: Response)
      modifies this`config, this`file
      ensures (State(), r) == Handled(manifests, old(State()), DeleteAuth, disk)
    {
      if config.None? {
        return Internal;
      }
      var doc := config.value;
      if CONSOLE in doc && doc[CONSOLE].Standard? {
        doc := doc[CONSOLE := Standard(doc[CONSOLE].entries - {"lark_app"})];
      }
      r := WriteDoc(Some(doc), disk);
    }
  }

  // ---- the file and the live configuration ------------------------------------------------------

  predicate Agrees(h: Host) {
    h.file == h.config
  }

  /** What one request does to the agreement: only a completed write makes it, only a torn one breaks it. */
  lemma AgreesAfterIff(manifests: set<string>, h: Host, req: Request, disk: Disk)
    ensures var h' := Handled(manifests, h, req, disk).0;
      Agrees(h') <==>
        (if Judged(manifests, h.config, req).Reject? || disk.Refused? then Agrees(h)
         else disk.Written? || disk.left == h.config)
  {
  }

  /** Without torn writes the file is the live configuration after every sequence of requests. */
  lemma {:induction false} FileAgreesAlways(manifests: set<string>, h: Host, served: seq<Served>)
    requires Agrees(h) && forall i :: 0 <= i < |served| ==> !served[i].disk.Torn?
    ensures Agrees(After(manifests, h, served))
  {
    if served != [] {
      FileAgreesAlways(manifests, h, Init(served));
      AgreesAfterIff(manifests, After(manifests, h, Init(served)), Last(served).request, Last(served).disk);
    }
  }

  /** Request number `k` is accepted and its write starts. */
  predicate Touches(manifests: set<string>, h: Host, served: seq<Served>, k: nat)
    requires k < |served|
  {
    !served[k].disk.Refused? && Judged(manifests, After(manifests, h, served[..k]).config, served[k].request).Write?
  }

  /**
   With torn writes: the file is the live configuration after a sequence of requests exactly if it was so
   after the last write that touched it, so a single completed write repairs what a torn one left.
   */
  lemma {:induction false} LastTouchDecides(manifests: set<string>, h: Host, served: seq<Served>, k: nat)
    requires k < |served| && Touches(manifests, h, served, k)
    requires forall i :: k < i < |served| ==> !Touches(manifests, h, served, i)
    ensures Agrees(After(manifests, h, served)) <==>
      (served[k].disk.Written? || served[k].disk.left == After(manifests, h, served[..k]).config)
    decreases |served|
  {
    var before := After(manifests, h, Init(served));
    AgreesAfterIff(manifests, before, Last(served).request, Last(served).disk);
    if k < |served| - 1 {
      assert Init(served) == served[..|served| - 1];
      assert !Touches(manifests, h, served, |served| - 1);
      forall i | k <= i < |served| - 1
        ensures Touches(manifests, h, Init(served), i) == Touches(manifests, h, served, i)
      {
        assert Init(served)[..i] == served[..i];
      }
      assert Init(served)[..k] == served[..k];
      LastTouchDecides(manifests, h, Init(served), k);
    }
  }

  // ---- sign-in --------------------------------------------------------------------------------

  /** After an accepted binding the console asks for sign-in with the bound app. */
  lemma BindingResolves(manifests: set<string>, config: Option<Document>, req: Request)
    requires req.PutAuth? && Judged(manifests, config, req).Write?
    ensures var text := Judged(manifests, config, req).text;
      Resolves(text) && BoundName(text) == Some(Trim(req.boundApp))
  {
    var text := Judged(manifests, config, req).text;
    var console := text.value[CONSOLE].entries;
    assert Lookup(text.value, REGISTRY) == Lookup(config.value, REGISTRY);
    ConsoleStaysWellTyped(config.value, Trim(req.boundApp), req.admins, req.redirectUri, req.scope);
  }

  lemma {:induction false} AdminsAreTexts(admins: seq<string>)
    ensures forall i :: 0 <= i < |Admins(admins)| ==> Admins(admins)[i].Str?
  {
    if admins != [] {
      AdminsAreTexts(Init(admins));
    }
  }

  lemma ConsoleStaysWellTyped(
    doc: Document, name: string, admins: seq<string>, redirectUri: Option<string>, scope: Option<string>)
    requires ConsoleWellTyped(Some(doc)) && WithConsole(doc, name, admins, redirectUri, scope).Some?
    ensures ConsoleWellTyped(WithConsole(doc, name, admins, redirectUri, scope))
    ensures BoundName(WithConsole(doc, name, admins, redirectUri, scope)) == Some(name)
  {
    AdminsAreTexts(admins);
    var edited := WithConsole(doc, name, admins, redirectUri, scope).value;
    var console := Table(edited[CONSOLE].entries);
    assert Get(console, "admins") == Some(Arr(Admins(admins)));
    assert ReadText(console, "lark_app") == Ok(Some(name));
    assert ReadText(console, "redirect_uri").Ok? && ReadText(console, "scope").Ok?;
  }

  /** Which requests, if they are accepted and written, open a console that asks for sign-in. */
  predicate Opens(config: Document, req: Request) {
    match req
    case SetEnabled(app, _) => app == REGISTRY
    case SetBinding(app, larkApp) =>
      var binding := NonBlank(larkApp);
      if app == REGISTRY then binding.Some? || BoundName(Some(config)) == Some("lark_app")
      else app == CONSOLE && (binding.None? || !HasCredentials(Some(config), binding.value))
    case UpsertApp(_, _, _, _, _) => false
    case DeleteApp(name) => BoundName(Some(config)) == Some(name)
    case PutAuth(_, _, _, _) => false
    case DeleteAuth => CONSOLE in config && config[CONSOLE].Standard?
    case PutText(text) => !Resolves(text)
  }

  lemma RegistryWithout(apps: map<string, Value>, name: string, other: string)
    requires forall n :: n in apps ==> TextFields(apps[n], APP_FIELDS)
    ensures var rest := Table(apps - {name});
      && ReadRegistry(Some(rest)).Ok?
      && (other != name ==> Get(rest, other) == Get(Table(apps), other))
      && Get(rest, name) == None
  {
  }

  lemma DeleteOpens(config: Document, name: string)
    requires Resolves(Some(config)) && WithoutEntry(config, name).Some?
    ensures !Resolves(WithoutEntry(config, name)) <==> BoundName(Some(config)) == Some(name)
  {
    var apps := config[REGISTRY].entries;
    var bound := BoundName(Some(config)).value;
    var edited := WithoutEntry(config, name).value;
    assert Lookup(config, REGISTRY) == Some(Table(apps));
    assert Lookup(edited, CONSOLE) == Lookup(config, CONSOLE);
    RegistryWithout(apps, name, bound);
    if apps - {name} == map[] {
      assert Lookup(edited, REGISTRY) == None;
      assert bound != name ==> bound !in (apps - {name});
    } else {
      assert Lookup(edited, REGISTRY) == Some(Table(apps - {name}));
    }
  }

  lemma UpsertKeeps(config: Document, name: string, appId: string, appSecret: string, baseUrl: string)
    requires Resolves(Some(config)) && appId != "" && appSecret != ""
    requires WithEntry(config, name, Entry(appId, appSecret, baseUrl)).Some?
    ensures Resolves(WithEntry(config, name, Entry(appId, appSecret, baseUrl)))
  {
    var entry := Entry(appId, appSecret, baseUrl);
    var edited := WithEntry(config, name, entry).value;
    var apps := Editable(config, REGISTRY).value;
    assert Lookup(edited, CONSOLE) == Lookup(config, CONSOLE);
    assert Lookup(edited, REGISTRY) == Some(Table(apps[name := entry]));
    assert TextFields(entry, APP_FIELDS);
    assert Field(Some(entry), "app_id") == Some(appId) && Field(Some(entry), "app_secret") == Some(appSecret);
  }

  /** A value that is no table makes the whole registry unreadable, and the console opens. */
  lemma SpoiltRegistryOpens(config: Document, field: string, value: Value)
    requires Put(config, REGISTRY, field, Some(value)).Some? && !value.Table?
    ensures !Resolves(Put(config, REGISTRY, field, Some(value)))
  {
    var edited := Put(config, REGISTRY, field, Some(value)).value;
    assert Lookup(edited, REGISTRY) == Some(Table(edited[REGISTRY].entries));
    assert !TextFields(edited[REGISTRY].entries[field], APP_FIELDS);
  }

  /** A write to another section leaves the sign-in alone; one to the console's own matters if it is to the binding. */
  lemma PutOpens(config: Document, app: string, field: string, value: Option<Value>)
    requires Resolves(Some(config)) && app != REGISTRY && Put(config, app, field, value).Some?
    requires field == "enabled" || (field == "lark_app" && (value.None? || value.value.Str?))
    ensures var edited := Put(config, app, field, value);
      Resolves(edited) <==> (app != CONSOLE || field == "enabled"
                             || (value.Some? && HasCredentials(Some(config), value.value.text)))
  {
    var edited := Put(config, app, field, value).value;
    assert Lookup(edited, REGISTRY) == Lookup(config, REGISTRY);
    if app != CONSOLE {
      assert Lookup(edited, CONSOLE) == Lookup(config, CONSOLE);
    } else {
      ConsoleFields(config, field, value);
    }
  }

  lemma ConsoleFields(config: Document, field: string, value: Option<Value>)
    requires ConsoleWellTyped(Some(config)) && Put(config, CONSOLE, field, value).Some?
    requires field == "enabled" || (field == "lark_app" && (value.None? || value.value.Str?))
    ensures ConsoleWellTyped(Put(config, CONSOLE, field, value))
    ensures BoundName(Put(config, CONSOLE, field, value)) ==
      if field == "enabled" then BoundName(Some(config))
      else if value.Some? then Some(value.value.text) else None
  {
    var console := Table(Put(config, CONSOLE, field, value).value[CONSOLE].entries);
    var before := Table(Editable(config, CONSOLE).value);
    assert forall key :: key != field ==> Get(console, key) == Get(before, key);
    assert ReadText(console, "lark_app").Ok?;
    assert ReadText(console, "redirect_uri") == ReadText(before, "redirect_uri");
    assert ReadText(console, "scope") == ReadText(before, "scope");
  }

  lemma UnbindOpens(config: Document)
    requires Resolves(Some(config))
    ensures !Resolves(Some(WithoutConsole(config))) <==> CONSOLE in config && config[CONSOLE].Standard?
  {
    if CONSOLE in config && config[CONSOLE].Standard? {
      assert Get(Table(WithoutConsole(config)[CONSOLE].entries), "lark_app") == None;
    }
  }

  lemma BindingOpens(manifests: set<string>, config: Document, app: string, larkApp: Option<string>)
    requires Resolves(Some(config)) && Judged(manifests, Some(config), SetBinding(app, larkApp)).Write?
    ensures !Resolves(Judged(manifests, Some(config), SetBinding(app, larkApp)).text)
      <==> Opens(config, SetBinding(app, larkApp))
  {
    var binding := NonBlank(larkApp);
    if app != REGISTRY {
      PutOpens(config, app, "lark_app", if binding.Some? then Some(Str(binding.value)) else None);
    } else if binding.Some? {
      SpoiltRegistryOpens(config, "lark_app", Str(binding.value));
    } else {
      var apps := Editable(config, REGISTRY).value;
      var edited := WithBinding(config, REGISTRY, None).value;
      assert Lookup(edited, CONSOLE) == Lookup(config, CONSOLE);
      assert Lookup(edited, REGISTRY) == Some(Table(apps - {"lark_app"}));
      RegistryWithout(apps, "lark_app", BoundName(Some(config)).value);
    }
  }

  /** An accepted and written request opens a console that asks for sign-in exactly if it is one of Opens. */
  lemma OpensIff(manifests: set<string>, config: Document, req: Request)
    requires Resolves(Some(config)) && Judged(manifests, Some(config), req).Write?
    ensures !Resolves(Judged(manifests, Some(config), req).text) <==> Opens(config, req)
  {
    match req
    case SetEnabled(app, enabled) =>
      if app == REGISTRY {
        SpoiltRegistryOpens(config, "enabled", Bool(enabled));
      } else {
        PutOpens(config, app, "enabled", Some(Bool(enabled)));
      }
    case SetBinding(app, larkApp) => BindingOpens(manifests, config, app, larkApp);
    case UpsertApp(name, appId, appSecret, baseUrl, _) =>
      UpsertKeeps(config, name, appId, appSecret, NormalizeBaseUrl(baseUrl));
    case DeleteApp(name) => DeleteOpens(config, name);
    case PutAuth(_, _, _, _) => BindingResolves(manifests, Some(config), req);
    case DeleteAuth => UnbindOpens(config);
    case PutText(_) =>
  }

  /** Request number `k` opens the console. */
  predicate OpensAt(manifests: set<string>, h: Host, served: seq<Served>, k: nat)
    requires k < |served|
  {
    var config := After(manifests, h, served[..k]).config;
    && served[k].disk.Written? && Judged(manifests, config, served[k].request).Write?
    && config.Some? && Opens(config.value, served[k].request)
  }

  predicate ClosedAfter(manifests: set<string>, h: Host, served: seq<Served>, k: nat)
    requires k <= |served|
  {
    Resolves(After(manifests, h, served[..k]).config)
  }

  /** The console asks for sign-in before, between and after the requests. */
  ghost predicate StaysClosed(manifests: set<string>, h: Host, served: seq<Served>) {
    forall k :: 0 <= k <= |served| ==> ClosedAfter(manifests, h, served, k)
  }

  ghost predicate NoneOpens(manifests: set<string>, h: Host, served: seq<Served>) {
    forall k :: 0 <= k < |served| ==> !OpensAt(manifests, h, served, k)
  }

  lemma ClosedAfterPrefix(manifests: set<string>, h: Host, served: seq<Served>, k: nat)
    requires k < |served|
    ensures ClosedAfter(manifests, h, Init(served), k) == ClosedAfter(manifests, h, served, k)
  {
    assert Init(served)[..k] == served[..k];
  }

  lemma StaysClosedSplit(manifests: set<string>, h: Host, served: seq<Served>)
    requires served != []
    ensures StaysClosed(manifests, h, served) <==>
      StaysClosed(manifests, h, Init(served)) && ClosedAfter(manifests, h, served, |served|)
  {
    forall k | 0 <= k < |served|
      ensures ClosedAfter(manifests, h, Init(served), k) == ClosedAfter(manifests, h, served, k)
    {
      ClosedAfterPrefix(manifests, h, served, k);
    }
  }

  lemma NoneOpensSplit(manifests: set<string>, h: Host, served: seq<Served>)
    requires served != []
    ensures NoneOpens(manifests, h, served) <==>
      NoneOpens(manifests, h, Init(served)) && !OpensAt(manifests, h, served, |served| - 1)
  {
    var p := Init(served);
    forall k | 0 <= k < |p| ensures OpensAt(manifests, h, p, k) == OpensAt(manifests, h, served, k) {
      assert p[..k] == served[..k];
    }
  }

  /**
   A console that asks for sign-in does so throughout a sequence of requests exactly if none of them is
   one of Opens where it is served, accepted and written.
   */
  lemma {:induction false} StaysClosedIff(manifests: set<string>, h: Host, served: seq<Served>)
    requires Resolves(h.config)
    ensures StaysClosed(manifests, h, served) <==> NoneOpens(manifests, h, served)
  {
    if served == [] {
      assert served[..0] == [];
    } else {
      var p := Init(served);
      StaysClosedIff(manifests, h, p);
      StaysClosedSplit(manifests, h, served);
      NoneOpensSplit(manifests, h, served);
      if StaysClosed(manifests, h, p) {
        assert ClosedAfter(manifests, h, p, |p|);
        LastStepOpensIff(manifests, h, served);
      }
    }
  }

  lemma LastStepOpensIff(manifests: set<string>, h: Host, served: seq<Served>)
    requires served != [] && ClosedAfter(manifests, h, Init(served), |served| - 1)
    ensures ClosedAfter(manifests, h, served, |served|) <==> !OpensAt(manifests, h, served, |served| - 1)
  {
    var p := Init(served);
    assert served[..|served| - 1] == p && p[..|p|] == p && served[..|served|] == served;
    StepOpensIff(manifests, After(manifests, h, p), Last(served));
  }

  lemma StepOpensIff(manifests: set<string>, h: Host, s: Served)
    requires Resolves(h.config)
    ensures !Resolves(Handled(manifests, h, s.request, s.disk).0.config) <==>
      s.disk.Written? && Judged(manifests, h.config, s.request).Write? && Opens(h.config.value, s.request)
  {
    if s.disk.Written? && Judged(manifests, h.config, s.request).Write? {
      OpensIff(manifests, h.config.value, s.request);
    }
  }

  // ---- references ------------------------------------------------------------------------------

  /** Which accepted requests leave an app with a reference to a registry entry that is not there. */
  predicate Strands(config: Document, req: Request, app: string) {
    match req
    case SetEnabled(_, _) => false
    case SetBinding(other, larkApp) =>
      other == REGISTRY && NonBlank(larkApp).None? && BoundTo(config, app, "lark_app")
    case UpsertApp(_, _, _, _, _) => false
    case DeleteApp(name) => BoundTo(config, app, name)
    case PutAuth(_, _, _, _) => false
    case DeleteAuth => false
    case PutText(text) => Dangling(text, app)
  }

  lemma DeleteStrands(config: Document, name: string, app: string)
    requires app != REGISTRY && WithoutEntry(config, name).Some? && !Dangling(Some(config), app)
    ensures Dangling(WithoutEntry(config, name), app) <==> BoundTo(config, app, name)
  {
    var edited := WithoutEntry(config, name).value;
    var rest := config[REGISTRY].entries - {name};
    assert Lookup(edited, app) == Lookup(config, app);
    assert forall other :: other != name && rest == map[] ==> other !in config[REGISTRY].entries by {
      forall other | other != name && rest == map[] ensures other !in config[REGISTRY].entries {
        assert other !in rest;
      }
    }
  }

  /** Accepted and written, a request strands an app that was not stranded exactly if it is one of Strands. */
  lemma StrandsIff(manifests: set<string>, config: Document, req: Request, app: string)
    requires app != REGISTRY && !Dangling(Some(config), app) && Judged(manifests, Some(config), req).Write?
    ensures Dangling(Judged(manifests, Some(config), req).text, app) <==> Strands(config, req, app)
  {
    if req.DeleteApp? {
      DeleteStrands(config, req.name, app);
    } else if req.PutAuth? {
      AuthStrandsNobody(config, req, app);
    }
  }

  lemma AuthStrandsNobody(config: Document, req: Request, app: string)
    requires app != REGISTRY && !Dangling(Some(config), app) && req.PutAuth?
    requires HasCredentials(Some(config), Trim(req.boundApp))
    requires WithConsole(config, Trim(req.boundApp), req.admins, req.redirectUri, req.scope).Some?
    ensures !Dangling(WithConsole(config, Trim(req.boundApp), req.admins, req.redirectUri, req.scope), app)
  {
    var edited := WithConsole(config, Trim(req.boundApp), req.admins, req.redirectUri, req.scope);
    assert Lookup(edited.value, REGISTRY) == Lookup(config, REGISTRY);
    if app == CONSOLE {
      ConsoleStaysWellTyped(config, Trim(req.boundApp), req.admins, req.redirectUri, req.scope);
    }
  }

  /** After an accepted binding of an app its next build does not fail for a missing entry. */
  lemma BoundAppBuilds(
    manifests: set<string>, config: Option<Document>, app: string, larkApp: Option<string>,
    env: LarkConfig, envSecret: string)
    requires app != REGISTRY && Judged(manifests, config, SetBinding(app, larkApp)).Write?
    ensures var text := Judged(manifests, config, SetBinding(app, larkApp)).text;
      !Dangling(text, app) && (app == "github" ==> !ReadState(text, env, envSecret).NoSuchApp?)
  {
    NoSuchAppIff(Judged(manifests, config, SetBinding(app, larkApp)).text, env, envSecret);
  }

  /** Deleting the entry that the github app is bound to makes its next build fail for just that. */
  lemma DeletedEntryFailsBuild(
    manifests: set<string>, config: Document, name: string, env: LarkConfig, envSecret: string)
    requires ReadState(Some(config), env, envSecret).Built? && BoundTo(config, "github", name)
    requires Judged(manifests, Some(config), DeleteApp(name)).Write?
    ensures ReadState(Judged(manifests, Some(config), DeleteApp(name)).text, env, envSecret) == NoSuchApp(name)
  {
    BuiltIff(Some(config), env, envSecret);
    NoSuchAppIff(Some(config), env, envSecret);
    DeleteStrands(config, name, "github");
    var edited := WithoutEntry(config, name);
    var apps := config[REGISTRY].entries;
    assert Lookup(config, REGISTRY) == Some(Table(apps));
    RegistryWithout(apps, name, name);
    assert Lookup(edited.value, "github") == Lookup(config, "github");
    NoSuchAppIff(edited, env, envSecret);
  }
}
