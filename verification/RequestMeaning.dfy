/**
 What the console's configuration requests promise, told from the request and the document alone: which
 are accepted, how a refusal is answered, what an accepted one changes, and what is live after many.
 */
module RequestMeaning {
  import opened Sequences
  import opened Text
  import opened Config
  import opened ConfigRoutes

  // ---- sign-in, read off the document -----------------------------------------------------------

  /** The console's section is absent, or a table whose known fields have their types. */
  predicate ConsoleReads(doc: Document) {
    "console" in doc ==>
      var console := ValueOf(doc["console"]);
      && TextTable(console, {"lark_app", "redirect_uri", "scope"})
      && ("admins" in console.entries ==>
            console.entries["admins"].Arr?
            && forall i :: 0 <= i < |console.entries["admins"].items| ==> console.entries["admins"].items[i].Str?)
  }

  lemma ConsoleReadsIff(doc: Document)
    ensures ConsoleWellTyped(Some(doc)) <==> ConsoleReads(doc)
  {
    if "console" in doc {
      TextFieldsIff(ValueOf(doc["console"]), {"lark_app", "redirect_uri", "scope"});
    }
  }

  /** An app can be signed in with exactly if both sections deserialize and its entry has both credentials. */
  lemma CredentialsIff(doc: Document, name: string)
    ensures HasCredentials(Some(doc), name) <==>
      && ConsoleReads(doc) && ReadRegistry(Lookup(doc, REGISTRY)).Ok?
      && First(TextBelow(doc, "lark-apps", name, "app_id"), Some("")).value != ""
      && First(TextBelow(doc, "lark-apps", name, "app_secret"), Some("")).value != ""
  {
    ConsoleReadsIff(doc);
  }

  /** The console asks for sign-in exactly if it names such an app. */
  lemma ResolvesIff(doc: Document)
    ensures Resolves(Some(doc)) <==>
      TextAt(doc, "console", "lark_app").Some? && HasCredentials(Some(doc), TextAt(doc, "console", "lark_app").value)
  {
  }

  // ---- which requests are accepted ----------------------------------------------------------------

  /** The section is absent or a standard table. */
  predicate CanEdit(doc: Document, section: string) {
    section in doc ==> doc[section].Standard?
  }

  /** The registry has an entry under this text. */
  predicate Registers(doc: Document, name: Value) {
    name.Str? && At(doc, "lark-apps", name.text).Some?
  }

  /** Everything a request brings along is in order, and what it names exists. */
  predicate InOrder(manifests: set<string>, config: Option<Document>, req: Request) {
    match req
    case SetEnabled(app, _) => app in manifests
    case SetBinding(app, larkApp) =>
      app in manifests && (Given(larkApp).Some? ==> config.Some? && Registers(config.value, Given(larkApp).value))
    case UpsertApp(name, appId, appSecret, _, verified) =>
      && name != ""
      && (forall c :: c in name ==> 'a' <= c <= 'z' || 'A' <= c <= 'Z' || '0' <= c <= '9' || c == '-' || c == '_')
      && appId != "" && appSecret != "" && verified
    case DeleteApp(name) =>
      config.Some? ==> CanEdit(config.value, "lark-apps") && At(config.value, "lark-apps", name).Some?
    case PutAuth(boundApp, _, _, _) => Trim(boundApp) != "" && HasCredentials(config, Trim(boundApp))
    case DeleteAuth => true
    case PutText(text) => text.Some?
  }

  /** The section a request edits, if it edits one. */
  function Section(req: Request): Option<string> {
    match req
    case SetEnabled(app, _) => Some(app)
    case SetBinding(app, _) => Some(app)
    case UpsertApp(_, _, _, _, _) => Some("lark-apps")
    case DeleteApp(_) => Some("lark-apps")
    case PutAuth(_, _, _, _) => Some("console")
    case DeleteAuth => None
    case PutText(_) => None
  }

  /** A request is accepted exactly if it is in order, the live text is TOML, and its section can be edited. */
  lemma AcceptedIff(manifests: set<string>, config: Option<Document>, req: Request)
    ensures Judged(manifests, config, req).Write? <==>
      && InOrder(manifests, config, req)
      && (config.Some? || req.PutText?)
      && (Section(req).Some? ==> CanEdit(config.value, Section(req).value))
  {
  }

  /** How a refused request is answered. */
  lemma RefusalIs(manifests: set<string>, config: Option<Document>, req: Request)
    requires Judged(manifests, config, req).Reject?
    ensures var answer := Judged(manifests, config, req).response;
      && (answer == NotFound <==>
            ((req.SetEnabled? || req.SetBinding?) && req.app !in manifests) || (req.DeleteApp? && config.Some?))
      && (answer == Internal <==> InOrder(manifests, config, req) && config.None? && !req.PutText?)
      && (answer == Panicked <==>
            InOrder(manifests, config, req) && config.Some? && (req.UpsertApp? || req.PutAuth?))
      && answer != Done
  {
  }

  // ---- what an accepted request changes --------------------------------------------------------------

  /** What a request says about a field: nothing, that it shall be absent, or its value. */
  function Says(doc: Document, req: Request, section: string, field: string): Option<Option<Value>> {
    match req
    case SetEnabled(app, enabled) => if section == app && field == "enabled" then Some(Some(Bool(enabled))) else None
    case SetBinding(app, larkApp) => if section == app && field == "lark_app" then Some(Given(larkApp)) else None
    case UpsertApp(name, appId, appSecret, baseUrl, _) =>
      if section == "lark-apps" && field == name then
        var url := if Given(baseUrl).Some? then Given(baseUrl).value else Str("https://open.larksuite.com");
        Some(Some(Table(map["app_id" := Str(appId), "app_secret" := Str(appSecret), "base_url" := url])))
      else None
    case DeleteApp(name) => if section == "lark-apps" && field == name then Some(None) else None
    case PutAuth(boundApp, admins, redirectUri, scope) =>
      if section != "console" then None
      else if field == "lark_app" then Some(Some(Str(Trim(boundApp))))
      else if field == "admins" then Some(Some(Arr(Admins(admins))))
      else if field == "redirect_uri" then Some(Given(redirectUri))
      else if field == "scope" then Some(Given(scope))
      else None
    case DeleteAuth =>
      if section == "console" && field == "lark_app" && CanEdit(doc, "console") then Some(None) else None
    case PutText(_) => None
  }

  /** The field is what the request says about it, and what it was where it says nothing. */
  predicate FieldIs(doc: Document, req: Request, edited: Document, section: string, field: string) {
    var said := Says(doc, req, section, field);
    At(edited, section, field) == if said.Some? then said.value else At(doc, section, field)
  }

  lemma SettingIs(manifests: set<string>, doc: Document, req: Request, edited: Document, section: string, field: string)
    requires Judged(manifests, Some(doc), req) == Write(Some(edited)) && (req.SetEnabled? || req.SetBinding?)
    ensures FieldIs(doc, req, edited, section, field)
  {
    if req.SetEnabled? {
      PutMeaning(doc, req.app, "enabled", Some(Bool(req.enabled)));
    } else {
      PutMeaning(doc, req.app, "lark_app", Given(req.larkApp));
    }
  }

  lemma EntryIs(manifests: set<string>, doc: Document, req: Request, edited: Document, section: string, field: string)
    requires Judged(manifests, Some(doc), req) == Write(Some(edited)) && (req.UpsertApp? || req.DeleteApp?)
    ensures FieldIs(doc, req, edited, section, field)
  {
    if req.UpsertApp? {
      PutMeaning(doc, REGISTRY, req.name, Some(Entry(req.appId, req.appSecret, NormalizeBaseUrl(req.baseUrl))));
    } else {
      WithoutEntryMeaning(doc, req.name);
    }
  }

  lemma AuthIs(manifests: set<string>, doc: Document, req: Request, edited: Document, section: string, field: string)
    requires Judged(manifests, Some(doc), req) == Write(Some(edited)) && (req.PutAuth? || req.DeleteAuth?)
    ensures FieldIs(doc, req, edited, section, field)
  {
    if req.PutAuth? {
      WithConsoleMeaning(doc, Trim(req.boundApp), req.admins, req.redirectUri, req.scope);
    } else {
      WithoutConsoleMeaning(doc);
    }
  }

  /** An accepted edit gives every field what the request says about it, and leaves every other field alone. */
  lemma EditIs(manifests: set<string>, doc: Document, req: Request, edited: Document, section: string, field: string)
    requires Judged(manifests, Some(doc), req) == Write(Some(edited)) && !req.PutText?
    ensures FieldIs(doc, req, edited, section, field)
  {
    match req
    case SetEnabled(_, _) => SettingIs(manifests, doc, req, edited, section, field);
    case SetBinding(_, _) => SettingIs(manifests, doc, req, edited, section, field);
    case UpsertApp(_, _, _, _, _) => EntryIs(manifests, doc, req, edited, section, field);
    case DeleteApp(_) => EntryIs(manifests, doc, req, edited, section, field);
    case PutAuth(_, _, _, _) => AuthIs(manifests, doc, req, edited, section, field);
    case DeleteAuth => AuthIs(manifests, doc, req, edited, section, field);
  }

  /** The credentials of an accepted entry read back as they were given, with the default address for a blank one. */
  lemma UpsertReadsBack(
    manifests: set<string>, doc: Document, name: string, appId: string, appSecret: string, baseUrl: Option<string>)
    requires Judged(manifests, Some(doc), UpsertApp(name, appId, appSecret, baseUrl, true)).Write?
    ensures var text := Judged(manifests, Some(doc), UpsertApp(name, appId, appSecret, baseUrl, true)).text.value;
      AppOf(GetFrom(Lookup(text, REGISTRY), name)) ==
        LarkApp(appId, appSecret, if Given(baseUrl).Some? then Trim(baseUrl.value) else "https://open.larksuite.com")
  {
  }

  // ---- what is live after many requests ------------------------------------------------------------------

  /** Request number `k` is accepted and its write completes. */
  predicate Lands(manifests: set<string>, h: Host, served: seq<Served>, k: nat)
    requires k < |served|
  {
    served[k].disk.Written? && Judged(manifests, After(manifests, h, served[..k]).config, served[k].request).Write?
  }

  /** One request: what becomes live, what is in the file, and the answer. */
  lemma HandledIs(manifests: set<string>, h: Host, req: Request, disk: Disk)
    ensures var (h', answer) := Handled(manifests, h, req, disk);
      var verdict := Judged(manifests, h.config, req);
      && h'.config == (if verdict.Write? && disk.Written? then verdict.text else h.config)
      && (verdict.Write? && disk.Written? ==> h'.file == verdict.text)
      && (verdict.Write? && disk.Torn? ==> h'.file == disk.left)
      && (verdict.Reject? || disk.Refused? ==> h'.file == h.file)
      && (answer == Done <==> verdict.Write? && disk.Written?)
      && (verdict.Write? && !disk.Written? ==> answer == Internal)
  {
  }

  /** The live configuration is the text of the last request that was accepted and written. */
  lemma {:induction false} LastLandedIsLive(manifests: set<string>, h: Host, served: seq<Served>, k: nat)
    requires k < |served| && Lands(manifests, h, served, k)
    requires forall i :: k < i < |served| ==> !Lands(manifests, h, served, i)
    ensures After(manifests, h, served).config ==
      Judged(manifests, After(manifests, h, served[..k]).config, served[k].request).text
  {
    var p := Init(served);
    assert served[..|served| - 1] == p;
    HandledIs(manifests, After(manifests, h, p), Last(served).request, Last(served).disk);
    if k < |served| - 1 {
      assert !Lands(manifests, h, served, |served| - 1);
      forall i | k <= i < |p| ensures Lands(manifests, h, p, i) == Lands(manifests, h, served, i) {
        assert p[..i] == served[..i];
      }
      assert p[..k] == served[..k];
      LastLandedIsLive(manifests, h, p, k);
    }
  }

  lemma {:induction false} NoneLandedKeeps(manifests: set<string>, h: Host, served: seq<Served>)
    requires forall i :: 0 <= i < |served| ==> !Lands(manifests, h, served, i)
    ensures After(manifests, h, served).config == h.config
  {
    if served != [] {
      var p := Init(served);
      assert served[..|served| - 1] == p && !Lands(manifests, h, served, |served| - 1);
      forall i | 0 <= i < |p| ensures Lands(manifests, h, p, i) == Lands(manifests, h, served, i) {
        assert p[..i] == served[..i];
      }
      NoneLandedKeeps(manifests, h, p);
      HandledIs(manifests, After(manifests, h, p), Last(served).request, Last(served).disk);
    }
  }
}
