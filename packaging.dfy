/** The Packager object: it holds the options and the project, fetches
    the large assets it needs (reporting progress as events), builds the
    runtime script, and packages the project as a web page, a zip of the
    page with its files, or a desktop build.

    Everything outside the core is a parameter of the object (an Env):
    the asset catalog, the network, the SHA-256 function, the zip reader,
    the PNG-to-ICNS converter, the bytes of the default icon, the
    copyright header, the data-URL reader and the HTML template around
    the runtime script. The asset cache is an object
    of its own. Each operation is specified by a function giving the
    result, the events, the requests and the cache entries it produces
    (a Step); the methods are proved to do what those functions say. */
module Packaging {
  import opened Blobs
  import opened JsStrings
  import opened Archive
  import opened AssetFetch
  import opened PackagerOptions
  import opened NwjsLayout
  import opened Assembly

  /** A dispatched `large-asset-fetch` event. */
  datatype Event = LargeAssetFetch(asset: string, progress: real)

  /** The file package() resolves with: the page itself, or an archive
      (zipping it into bytes is not modelled). */
  datatype OutputFile = Page(html: string) | Zipped(archive: Archive)
  datatype Output = Output(file: OutputFile, filename: string)

  /** Why an operation throws: a large asset could not be fetched, the
      zip reader rejected its input, the runtime archive had no entry to
      take its top folder from, or the default icon could not be
      downloaded. */
  datatype PackageError = FetchFailed(cause: FetchError) | UnreadableArchive | EmptyRuntime | IconUnavailable

  /** The world outside the core. The HTML template is `pageHead`, the
      text before the element that runs the runtime script, and
      `pageTail`, the text after it, which embeds the project loader.
      `dataUrl` is readAsURL. */
  datatype Env = Env(
    catalog: map<string, Asset>,
    network: Request -> Response,
    hash: Blob -> string,
    unzip: Blob -> Option<Archive>,
    toIcns: seq<byte> -> seq<byte>,
    defaultIcon: Option<seq<byte>>,
    header: string,
    dataUrl: Blob -> string,
    pageHead: Options -> string,
    pageTail: (Options, Loader) -> string)

  /** What one operation does: its outcome, the events it dispatched and
      the requests it sent, in order, and the cache entries afterwards. */
  datatype Step<T> = Step(outcome: Result<T, PackageError>, events: seq<Event>, requests: seq<Request>, entries: map<Asset, Blob>)

  /** The events reporting the fetch of `name`, one per progress value. */
  function Tagged(name: string, ps: seq<real>): seq<Event>
    decreases |ps|
  {
    if ps == [] then [] else Tagged(name, ps[..|ps| - 1]) + [LargeAssetFetch(name, ps[|ps| - 1])]
  }

  /** One event per progress value, in order. */
  lemma {:induction false} TaggedAt(name: string, ps: seq<real>)
    ensures |Tagged(name, ps)| == |ps|
    ensures forall i :: 0 <= i < |ps| ==> Tagged(name, ps)[i] == LargeAssetFetch(name, ps[i])
    decreases |ps|
  {
    if ps != [] {
      TaggedAt(name, ps[..|ps| - 1]);
    }
  }

  lemma {:induction false} TaggedAppend(name: string, a: seq<real>, b: seq<real>)
    ensures Tagged(name, a + b) == Tagged(name, a) + Tagged(name, b)
    decreases |b|
  {
    if b == [] {
      assert a + b == a;
    } else {
      var init := b[..|b| - 1];
      TaggedAppend(name, a, init);
      assert (a + b)[..|a + b| - 1] == a + init;
      assert (a + b)[|a + b| - 1] == b[|b| - 1];
    }
  }

  /** Dispatching one more progress value extends the tagged log. */
  lemma Dispatched(log: seq<Event>, name: string, ps: seq<real>, p: real)
    ensures log + Tagged(name, ps) + [LargeAssetFetch(name, p)] == log + Tagged(name, ps + [p])
  {
    assert (ps + [p])[..|ps|] == ps;
  }

  /** Dispatching a run of progress values extends the tagged log. */
  lemma Appended(log: seq<Event>, name: string, ps: seq<real>, more: seq<real>)
    ensures log + Tagged(name, ps) + Tagged(name, more) == log + Tagged(name, ps + more)
  {
    TaggedAppend(name, ps, more);
  }

  /** Two logs appended in turn are one appended log. */
  lemma Regrouped<T>(log: seq<T>, a: seq<T>, b: seq<T>)
    ensures log + a + b == log + (a + b)
  {
  }

  /** A prefix as long as the sequence is the sequence. */
  /** Write `start + j` of a run whose part from `start` on mounts the
      payload is payload entry `j` under the data folder. */
  lemma MountedWriteAt(writes: seq<Entry>, start: nat, payload: Archive, dataPrefix: string, j: nat)
    requires start + |payload.paths| <= |writes| && j < |payload.paths|
    requires writes[start..start + |payload.paths|] == MountedPayload(payload, dataPrefix)
    ensures writes[start + j] == (dataPrefix + payload.paths[j], payload.files[payload.paths[j]])
  {
    MountedAt(payload, dataPrefix);
    assert writes[start..start + |payload.paths|][j] == writes[start + j];
  }

  lemma Whole<T>(s: seq<T>, n: nat)
    requires n == |s|
    ensures s[..n] == s
  {
  }

  /** The text a fetched value contributes to `texts.join('\n')`: the
      string itself, or what JavaScript makes of an ArrayBuffer. */
  function JsText(b: Blob): string {
    match b
    case Text(s) => s
    case Binary(_) => "[object ArrayBuffer]"
  }

  // ---- the operations as functions ----

  /** fetchLargeAsset(name), seen from the Packager. */
  function FetchStep(env: Env, store: Store, name: string): Step<Blob>
  {
    var run := Fetch(env.catalog, name, store, env.network, env.hash);
    Step(if run.outcome.Ok? then Ok(run.outcome.value) else Err(FetchFailed(run.outcome.error)),
         Tagged(name, run.events), run.requests, run.entries)
  }

  /** loadResources: the scaffolding, then the addons when the gamepad
      chunk is on, then the script built from them. */
  function LoadStep(env: Env, store: Store, gamepad: bool): Step<string> {
    var s := FetchStep(env, store, "scaffolding");
    if s.outcome.Err? then Step(Err(s.outcome.error), s.events, s.requests, s.entries)
    else if !gamepad then
      Step(Ok(ScriptText(env.header, JsText(s.outcome.value), None)), s.events, s.requests, s.entries)
    else
      var a := FetchStep(env, store.(entries := s.entries), "addons");
      Step(if a.outcome.Err? then Err(a.outcome.error)
           else Ok(ScriptText(env.header, JsText(s.outcome.value), Some(JsText(a.outcome.value)))),
           s.events + a.events, s.requests + a.requests, a.entries)
  }

  /** The desktop build's settings, from the options and the icon. */
  function ShellFor(env: Env, options: Options, icon: AppIcon): Shell {
    Shell(options.target, options.packageName, options.stageWidth, options.stageHeight, icon, env.toIcns(icon.data))
  }

  /** addNwJS(payload): fetch the runtime named by the target, read it,
      get the icon, and lay out the desktop build. */
  function NwjsStep(env: Env, store: Store, options: Options, payload: Archive): Step<Archive> {
    var f := FetchStep(env, store, options.target);
    if f.outcome.Err? then Step(Err(f.outcome.error), f.events, f.requests, f.entries)
    else
      var parsed := env.unzip(f.outcome.value);
      if parsed.None? then Step(Err(UnreadableArchive), f.events, f.requests, f.entries)
      else if parsed.value.paths == [] then Step(Err(EmptyRuntime), f.events, f.requests, f.entries)
      else
        var icon := GetAppIcon(options.icon, env.defaultIcon);
        if icon.None? then Step(Err(IconUnavailable), f.events, f.requests, f.entries)
        else Step(Ok(Layout(ShellFor(env, options, icon.value), parsed.value, payload)), f.events, f.requests, f.entries)
  }

  /** The loader the page embeds. */
  function LoaderFor(env: Env, options: Options, project: Project): Loader {
    ProjectDataLoader(options.target, project.kind, env.dataUrl(project.blob))
  }

  /** The page package() renders around the runtime script `script`. */
  function PageFor(env: Env, options: Options, project: Project, script: string): string {
    env.pageHead(options) + ScriptElement(options.target, script) + env.pageTail(options, LoaderFor(env, options, project))
  }

  /** The archive package() builds before any desktop layout, or None
      when the project has to be read and cannot be. */
  function BaseArchive(env: Env, options: Options, project: Project, script: string): Option<Archive> {
    var parsed := if MovesToAssets(project, options.target) then env.unzip(project.blob) else Some(EmptyArchive);
    if parsed.None? then None
    else Some(Assembled(ProjectEntries(project, options.target, parsed.value), PageFor(env, options, project, script), script))
  }

  /** package(): the reference meaning. */
  function PackageStep(env: Env, store: Store, options: Options, project: Project): Step<Output> {
    var load := LoadStep(env, store, options.gamepad);
    if load.outcome.Err? then Step(Err(load.outcome.error), load.events, load.requests, load.entries)
    else if options.target == "html" then
      Step(Ok(Output(Page(PageFor(env, options, project, load.outcome.value)), GenerateFilename(options.windowTitle, "html"))),
           load.events, load.requests, load.entries)
    else
      var base := BaseArchive(env, options, project, load.outcome.value);
      if base.None? then Step(Err(UnreadableArchive), load.events, load.requests, load.entries)
      else if "nwjs-" <= options.target then
        var n := NwjsStep(env, store.(entries := load.entries), options, base.value);
        Step(if n.outcome.Err? then Err(n.outcome.error)
             else Ok(Output(Zipped(n.outcome.value), GenerateFilename(options.windowTitle, "zip"))),
             load.events + n.events, load.requests + n.requests, n.entries)
      else
        Step(Ok(Output(Zipped(base.value), GenerateFilename(options.windowTitle, "zip"))),
             load.events, load.requests, load.entries)
  }

  /** With the gamepad chunk on, the load is the two fetches in a row. */
  lemma LoadStepGamepad(env: Env, store: Store)
    ensures var s := FetchStep(env, store, "scaffolding");
      var a := FetchStep(env, store.(entries := s.entries), "addons");
      var load := LoadStep(env, store, true);
      s.outcome.Ok? ==>
        load.events == s.events + a.events && load.requests == s.requests + a.requests
        && load.entries == a.entries && (load.outcome.Ok? <==> a.outcome.Ok?)
        && (a.outcome.Err? ==> load.outcome.error == a.outcome.error)
  {
  }

  // ---- what the functions promise ----

  /** The script loadResources builds never holds `</script>`, and it is
      the texts in order: the header, the scaffolding, and then the addons
      exactly when the gamepad chunk is on. */
  lemma LoadedScript(env: Env, store: Store, gamepad: bool)
    ensures var load := LoadStep(env, store, gamepad);
      var s := FetchStep(env, store, "scaffolding");
      var a := FetchStep(env, store.(entries := s.entries), "addons");
      (load.outcome.Ok? <==> s.outcome.Ok? && (gamepad ==> a.outcome.Ok?))
      && (load.outcome.Ok? ==> !Contains(load.outcome.value, ScriptClose))
      && (load.outcome.Ok? && !gamepad ==>
            load.outcome.value == ScriptText(env.header, JsText(s.outcome.value), None))
      && (load.outcome.Ok? && gamepad ==>
            load.outcome.value == ScriptText(env.header, JsText(s.outcome.value), Some(JsText(a.outcome.value))))
  {
    var s := FetchStep(env, store, "scaffolding");
    if s.outcome.Ok? {
      var a := FetchStep(env, store.(entries := s.entries), "addons");
      if gamepad && a.outcome.Ok? {
        ScriptHasNoClosingTag(env.header, JsText(s.outcome.value), Some(JsText(a.outcome.value)));
      } else {
        ScriptHasNoClosingTag(env.header, JsText(s.outcome.value), None);
      }
    }
  }

  /** The output is named after the window title, with `html` for the
      page and `zip` for every other target. */
  lemma OutputName(env: Env, store: Store, options: Options, project: Project)
    ensures var r := PackageStep(env, store, options, project);
      r.outcome.Ok? ==>
        r.outcome.value.file.Page? == (options.target == "html")
        && r.outcome.value.filename == options.windowTitle + "." + (if options.target == "html" then "html" else "zip")
  {
    var r := PackageStep(env, store, options, project);
    var load := LoadStep(env, store, options.gamepad);
    if load.outcome.Ok? && options.target != "html" {
      var base := BaseArchive(env, options, project, load.outcome.value);
      if base.Some? && "nwjs-" <= options.target {
        var n := NwjsStep(env, store.(entries := load.entries), options, base.value);
        assert r.outcome.Ok? ==> r.outcome == Ok(Output(Zipped(n.outcome.value), GenerateFilename(options.windowTitle, "zip")));
      }
    }
  }

  /** The html page runs the loaded script inline, in one element that no
      `</script>` inside the script can end early, and its loader embeds
      the project's data URL. */
  lemma HtmlPageCarriesScript(env: Env, store: Store, options: Options, project: Project)
    requires options.target == "html"
    ensures var r := PackageStep(env, store, options, project);
      var load := LoadStep(env, store, options.gamepad);
      (r.outcome.Ok? <==> load.outcome.Ok?)
      && (r.outcome.Ok? ==>
            r.outcome.value.file == Page(env.pageHead(options) + ScriptOpen + load.outcome.value + ScriptClose
              + env.pageTail(options, InlineData(env.dataUrl(project.blob), ProgressFetchedInlineDataButNotLoaded)))
            && !Contains(load.outcome.value, ScriptClose))
  {
    var load := LoadStep(env, store, options.gamepad);
    LoadedScript(env, store, options.gamepad);
    if load.outcome.Ok? {
      var script := load.outcome.value;
      assert PackageStep(env, store, options, project).outcome
        == Ok(Output(Page(PageFor(env, options, project, script)), GenerateFilename(options.windowTitle, "html")));
      Inlined(env.pageHead(options), script, env.pageTail(options, LoaderFor(env, options, project)));
    }
  }

  lemma Inlined(head: string, script: string, tail: string)
    ensures head + (ScriptOpen + script + ScriptClose) + tail == head + ScriptOpen + script + ScriptClose + tail
  {
  }

  /** Every other page runs script.js instead, and downloads the project
      rather than embedding it. */
  lemma ZipPageLoadsScriptFile(env: Env, store: Store, options: Options, project: Project)
    requires options.target != "html" && !("nwjs-" <= options.target)
    ensures var r := PackageStep(env, store, options, project);
      r.outcome.Ok? ==>
        LoaderFor(env, options, project).Download?
        && Lookup(r.outcome.value.file.archive, "index.html")
             == Some(Data(Text(env.pageHead(options) + ScriptFileElement + env.pageTail(options, LoaderFor(env, options, project)))))
  {
  }

  /** A zip that is not a desktop build holds the rendered page and the
      loaded script at the root, and its loader finds the project: it
      asks for ./project.zip exactly when the archive has that entry. */
  lemma ZipContents(env: Env, store: Store, options: Options, project: Project)
    requires options.target != "html" && !("nwjs-" <= options.target)
    ensures var r := PackageStep(env, store, options, project);
      var load := LoadStep(env, store, options.gamepad);
      r.outcome.Ok? ==>
        r.outcome.value.file.Zipped?
        && Lookup(r.outcome.value.file.archive, "index.html") == Some(Data(Text(PageFor(env, options, project, load.outcome.value))))
        && Lookup(r.outcome.value.file.archive, "script.js") == Some(Data(Text(load.outcome.value)))
        && (LoaderFor(env, options, project).src == "./project.zip"
            <==> "project.zip" in r.outcome.value.file.archive.files)
  {
    var load := LoadStep(env, store, options.gamepad);
    if load.outcome.Ok? {
      var parsed := if MovesToAssets(project, options.target) then env.unzip(project.blob) else Some(EmptyArchive);
      if parsed.Some? {
        LoaderMatchesArchive(project, options.target, env.dataUrl(project.blob), parsed.value, PageFor(env, options, project, load.outcome.value), load.outcome.value);
      }
    }
  }

  /** An sb3 project (not packaged as one asset) whose entries do not
      already lie under assets/ keeps every entry, moved under assets/. */
  lemma ZipAssets(env: Env, store: Store, options: Options, project: Project, p: Path)
    requires options.target != "html" && !("nwjs-" <= options.target)
    requires MovesToAssets(project, options.target)
    ensures var r := PackageStep(env, store, options, project);
      var parsed := env.unzip(project.blob);
      r.outcome.Ok? && NoAssetKeys(parsed.value) ==>
        Lookup(r.outcome.value.file.archive, AssetsFolder + p) == Lookup(parsed.value, p)
  {
    var load := LoadStep(env, store, options.gamepad);
    var parsed := env.unzip(project.blob);
    if load.outcome.Ok? && parsed.Some? && NoAssetKeys(parsed.value) {
      MovedExactly(parsed.value, p);
      var q := AssetsFolder + p;
      assert q[0] == 'a';
      assert "index.html"[0] == 'i' && "script.js"[0] == 's';
    }
  }

  /** addNwJS succeeds exactly when the runtime is fetched, readable and
      not empty and an icon is at hand. With no icon picked and the
      default icon's download failed, it rejects after the runtime's
      fetch. Whatever the outcome, the events, requests and cache entries
      are the runtime fetch's. */
  lemma NwjsStepOutcome(env: Env, store: Store, options: Options, payload: Archive)
    ensures var n := NwjsStep(env, store, options, payload);
      var f := FetchStep(env, store, options.target);
      var runtimeReady := f.outcome.Ok? && env.unzip(f.outcome.value).Some? && env.unzip(f.outcome.value).value.paths != [];
      n.events == f.events && n.requests == f.requests && n.entries == f.entries
      && (n.outcome.Ok? <==> runtimeReady && GetAppIcon(options.icon, env.defaultIcon).Some?)
      && (n.outcome == Err(IconUnavailable) <==> runtimeReady && options.icon.NoIcon? && env.defaultIcon.None?)
  {
  }

  /** In a desktop build the shell starts the page: package.json names
      `index.html` as its main file, and at that place in the data folder
      lies the rendered page, unless the icon itself is named
      `index.html` (the later write wins). */
  lemma DesktopStartsPage(env: Env, store: Store, options: Options, project: Project)
    requires "nwjs-" <= options.target
    ensures var r := PackageStep(env, store, options, project);
      var dp := DataPrefix(options.target, options.packageName);
      var icon := GetAppIcon(options.icon, env.defaultIcon);
      var load := LoadStep(env, store, options.gamepad);
      r.outcome.Ok? ==>
        icon.Some?
        && Lookup(r.outcome.value.file.archive, dp + "package.json")
          == Some(PackageJson(Manifest(options.packageName, "index.html", options.stageWidth, options.stageHeight, icon.value.name)))
        && (icon.value.name != "index.html" ==>
              Lookup(r.outcome.value.file.archive, dp + "index.html") == Some(Data(Text(PageFor(env, options, project, load.outcome.value)))))
  {
    var load := LoadStep(env, store, options.gamepad);
    assert "nwjs-"[0] == 'n' && "html"[0] == 'h';
    if load.outcome.Ok? {
      var base := BaseArchive(env, options, project, load.outcome.value);
      if base.Some? {
        var n := NwjsStep(env, store.(entries := load.entries), options, base.value);
        if n.outcome.Ok? {
          var f := FetchStep(env, store.(entries := load.entries), options.target);
          var runtime := env.unzip(f.outcome.value).value;
          var s := ShellFor(env, options, GetAppIcon(options.icon, env.defaultIcon).value);
          LayoutManifest(s, runtime, base.value);
          if s.icon.name != "index.html" {
            LayoutPayload(s, runtime, base.value, "index.html");
          }
        }
      }
    }
  }

  /** The payload loop of addNwJS: every entry of the archive built so
      far goes under the data folder, in its order. The ghost `writes`
      is the whole run of writes, whose entries from `start` on are
      these. */
  method MountPayload(zip: Zip, payload: Archive, dataPrefix: string, ghost writes: seq<Entry>, ghost start: nat)
    requires start + |payload.paths| <= |writes|
    requires writes[start..start + |payload.paths|] == MountedPayload(payload, dataPrefix)
    requires zip.Valid() && zip.View() == PutAll(EmptyArchive, writes[..start])
    modifies zip
    ensures zip.Valid() && zip.View() == PutAll(EmptyArchive, writes[..start + |payload.paths|])
  {
    var j := 0;
    while j != |payload.paths|
      invariant j <= |payload.paths|
      invariant zip.Valid() && zip.View() == PutAll(EmptyArchive, writes[..start + j])
      decreases |payload.paths| - j
      modifies zip
    {
      var path := payload.paths[j];
      MountedWriteAt(writes, start, payload, dataPrefix, j);
      SetNext(zip, dataPrefix + path, payload.files[path], writes, start + j);
      j := j + 1;
    }
  }

  /** The rest of addNwJS: the icns on macOS, the payload, the icon and
      package.json. */
  method MountShell(zip: Zip, env: Env, options: Options, runtime: Archive, payload: Archive, icon: AppIcon, ghost s: Shell)
    requires runtime.paths != [] && s == ShellFor(env, options, icon)
    requires zip.Valid() && zip.View() == PutAll(EmptyArchive, CopiedRuntime(runtime, s))
    modifies zip
    ensures zip.Valid() && zip.View() == Layout(s, runtime, payload)
  {
    LayoutWritesAt(s, runtime, payload);
    PlaceAfterCopy(zip, env, options, payload, icon, LayoutWrites(s, runtime, payload), |runtime.paths|, s);
  }

  /** The writes of addNwJS after the copy, done on a Zip that holds the
      first `c` writes of the run `writes`, which is laid out as the icns
      on macOS, the mounted payload and the shell files. */
  method PlaceAfterCopy(zip: Zip, env: Env, options: Options, payload: Archive, icon: AppIcon,
                        ghost writes: seq<Entry>, ghost c: nat, ghost s: Shell)
    requires s == ShellFor(env, options, icon)
    requires c + |IcnsEntries(s)| + |payload.paths| + 2 == |writes|
    requires IsMac(s.target) ==> writes[c] == (IcnsPath(s.packageName), Data(Binary(s.icns)))
    requires writes[c + |IcnsEntries(s)|..c + |IcnsEntries(s)| + |payload.paths|]
      == MountedPayload(payload, DataPrefix(s.target, s.packageName))
    requires writes[c + |IcnsEntries(s)| + |payload.paths|..] == ShellFiles(s)
    requires zip.Valid() && zip.View() == PutAll(EmptyArchive, writes[..c])
    modifies zip
    ensures zip.Valid() && zip.View() == PutAll(EmptyArchive, writes)
  {
    ghost var k := c + |IcnsEntries(s)|;
    var dataPrefix := PlaceIcns(zip, env, options, icon, writes, c, s);
    MountPayload(zip, payload, dataPrefix, writes, k);
    PlaceShellFiles(zip, env, options, icon, dataPrefix, writes, k + |payload.paths|, s);
  }

  /** The end of addNwJS: the icon and package.json in the data folder. */
  method PlaceShellFiles(zip: Zip, env: Env, options: Options, icon: AppIcon, dataPrefix: string, ghost writes: seq<Entry>, ghost start: nat, ghost s: Shell)
    requires s == ShellFor(env, options, icon) && dataPrefix == DataPrefix(s.target, s.packageName)
    requires start + 2 == |writes| && writes[start..] == ShellFiles(s)
    requires zip.Valid() && zip.View() == PutAll(EmptyArchive, writes[..start])
    modifies zip
    ensures zip.Valid() && zip.View() == PutAll(EmptyArchive, writes)
  {
    var packageName := options.packageName;
    assert writes[start] == (dataPrefix + icon.name, Data(Binary(icon.data)));
    zip.Set(dataPrefix + icon.name, Data(Binary(icon.data)));
    PutAllSnoc(EmptyArchive, writes, start);
    var manifest := Manifest(packageName, "index.html", options.stageWidth, options.stageHeight, icon.name);
    assert writes[start + 1] == (dataPrefix + "package.json", PackageJson(manifest));
    zip.Set(dataPrefix + "package.json", PackageJson(manifest));
    PutAllSnoc(EmptyArchive, writes, start + 1);
    Whole(writes, start + 2);
  }

  /** The `isMac` block of addNwJS: the icns next to the app bundle on
      macOS, and the data folder the rest goes to. */
  method PlaceIcns(zip: Zip, env: Env, options: Options, icon: AppIcon, ghost writes: seq<Entry>, ghost start: nat, ghost s: Shell) returns (dataPrefix: string)
    requires s == ShellFor(env, options, icon)
    requires start + |IcnsEntries(s)| <= |writes|
    requires IsMac(s.target) ==> writes[start] == (IcnsPath(s.packageName), Data(Binary(s.icns)))
    requires zip.Valid() && zip.View() == PutAll(EmptyArchive, writes[..start])
    modifies zip
    ensures dataPrefix == DataPrefix(s.target, s.packageName)
    ensures zip.Valid() && zip.View() == PutAll(EmptyArchive, writes[..start + |IcnsEntries(s)|])
  {
    var packageName := options.packageName;
    if options.target == "nwjs-mac" {
      var icnsData := env.toIcns(icon.data);
      zip.Set(packageName + "/" + packageName + ".app/Contents/Resources/app.icns", Data(Binary(icnsData)));
      PutAllSnoc(EmptyArchive, writes, start);
      dataPrefix := packageName + "/" + packageName + ".app/Contents/Resources/app.nw/";
    } else {
      dataPrefix := packageName + "/";
    }
  }

  // ---- the object ----

  class Packager {
    const env: Env
    const cache: AssetCache
    var options: Options
    var project: Project
    var script: string
    /** Every event dispatched so far, in order. */
    var events: seq<Event>
    /** Every request sent to the network so far, in order. */
    var requests: seq<Request>

    /** `new Packager()`, given its world and the project to package. */
    constructor (env: Env, cache: AssetCache, project: Project)
      ensures this.env == env && this.cache == cache && this.project == project
      ensures options == DefaultOptions() && script == "" && events == [] && requests == []
    {
      this.env := env;
      this.cache := cache;
      this.project := project;
      options := DefaultOptions();
      script := "";
      events := [];
      requests := [];
    }

    method Dispatch(name: string, progress: real)
      modifies this`events
      ensures events == old(events) + [LargeAssetFetch(name, progress)]
    {
      events := events + [LargeAssetFetch(name, progress)];
    }

    /** fetchLargeAsset(name). */
    method FetchLargeAsset(name: string) returns (r: Result<Blob, FetchError>)
      modifies this`events, this`requests, cache`entries
      ensures var run := Fetch(env.catalog, name, old(cache.State()), env.network, env.hash);
        r == run.outcome && events == old(events) + Tagged(name, run.events)
        && requests == old(requests) + run.requests && cache.entries == run.entries
    {
      ghost var store := cache.State();
      ghost var run := Fetch(env.catalog, name, store, env.network, env.hash);
      if name !in env.catalog {
        assert run == Run(Err(InvalidAsset(name)), [], [], None, store.entries);
        assert Tagged(name, []) == [];
        return Err(InvalidAsset(name));
      }
      var asset := env.catalog[name];
      ghost var rq := RequestFor(asset, store.buster);
      ghost var before := events;
      assert Tagged(name, []) == [];
      Dispatch(name, 0.0);
      Dispatched(before, name, [], 0.0);
      ghost var progress: seq<real> := [0.0];
      var result := ReadCache(name, asset);
      assert result == CacheLookup(store, asset);
      var cameFromCache := result.Some?;
      if cameFromCache {
        Dispatched(before, name, progress, 0.5);
        progress := progress + [0.5];
      } else {
        var response := Download(name, asset);
        assert response == env.network(rq);
        Appended(before, name, progress, response.progress);
        progress := progress + response.progress;
        if response.body.None? {
          assert run == Run(Err(RequestFailed(rq.url)), progress, [rq], None, store.entries);
          return Err(RequestFailed(RequestFor(asset, cache.buster).url));
        }
        result := response.body;
      }
      assert events == before + Tagged(name, progress);
      assert requests == old(requests) + (if cameFromCache then [] else [rq]);
      assert progress == [0.0] + (if cameFromCache then [0.5] else env.network(rq).progress);
      if asset.sha256 != "" {
        var digest := env.hash(result.value);
        if digest != asset.sha256 {
          assert run.outcome == Err(HashMismatch(name, digest, asset.sha256));
          assert run.events == progress && run.entries == store.entries;
          return Err(HashMismatch(name, digest, asset.sha256));
        }
      }
      if !cameFromCache {
        var _ := cache.Set(asset, result.value);
      }
      assert cache.entries == run.entries;
      Dispatch(name, 1.0);
      Dispatched(before, name, progress, 1.0);
      assert run.events == progress + [1.0];
      r := Ok(result.value);
    }

    /** The `try` around `assetCache.get`: a value is used only when it
        is truthy, and an exception counts as a miss. A hit reports 0.5. */
    method ReadCache(name: string, asset: Asset) returns (result: Option<Blob>)
      modifies this`events
      ensures result == CacheLookup(cache.State(), asset)
      ensures events == old(events) + (if result.Some? then [LargeAssetFetch(name, 0.5)] else [])
    {
      result := None;
      var cached := cache.Get(asset);
      if cached.Ok? && cached.value.Some? && Truthy(cached.value.value) {
        result := cached.value;
        Dispatch(name, 0.5);
      }
    }

    /** The download of a missed asset: the request, with the cache
        buster when the asset asks for it, and its progress reports. */
    method Download(name: string, asset: Asset) returns (response: Response)
      modifies this`events, this`requests
      ensures response == env.network(RequestFor(asset, cache.buster))
      ensures requests == old(requests) + [RequestFor(asset, cache.buster)]
      ensures events == old(events) + Tagged(name, response.progress)
    {
      var url := asset.src;
      if asset.cacheBuster {
        url := url + "?" + cache.GetCacheBuster();
      }
      var request := Request(url, asset.kind, asset.estimatedSize);
      requests := requests + [request];
      response := env.network(request);
      events := events + Tagged(name, response.progress);
    }

    /** loadResources(): on success the script is set; on failure it is
        left as it was. */
    method LoadResources() returns (r: Result<(), PackageError>)
      modifies this`script, this`events, this`requests, cache`entries
      ensures var load := LoadStep(env, old(cache.State()), options.gamepad);
        (r.Ok? <==> load.outcome.Ok?) && (r.Err? ==> r.error == load.outcome.error)
        && script == (if load.outcome.Ok? then load.outcome.value else old(script))
        && events == old(events) + load.events && requests == old(requests) + load.requests
        && cache.entries == load.entries
    {
      ghost var store := cache.State();
      ghost var load := LoadStep(env, store, options.gamepad);
      ghost var s := FetchStep(env, store, "scaffolding");
      var scaffolding := FetchLargeAsset("scaffolding");
      assert scaffolding.Ok? == s.outcome.Ok? && cache.entries == s.entries;
      assert events == old(events) + s.events && requests == old(requests) + s.requests;
      if scaffolding.Err? {
        assert load == Step(Err(FetchFailed(scaffolding.error)), s.events, s.requests, s.entries);
        return Err(FetchFailed(scaffolding.error));
      }
      assert s.outcome.value == scaffolding.value;
      var addons: Option<string> := None;
      if options.gamepad {
        ghost var mid := cache.State();
        assert mid == store.(entries := s.entries);
        ghost var a := FetchStep(env, mid, "addons");
        ghost var e, q := events, requests;
        var fetched := FetchLargeAsset("addons");
        assert fetched.Ok? == a.outcome.Ok? && cache.entries == a.entries;
        assert events == e + a.events && requests == q + a.requests;
        LoadStepGamepad(env, store);
        Regrouped(old(events), s.events, a.events);
        Regrouped(old(requests), s.requests, a.requests);
        if fetched.Err? {
          assert load.outcome == Err(FetchFailed(fetched.error));
          return Err(FetchFailed(fetched.error));
        }
        assert a.outcome.value == fetched.value;
        addons := Some(JsText(fetched.value));
      }
      script := ScriptText(env.header, JsText(scaffolding.value), addons);
      assert load.outcome == Ok(script);
      r := Ok(());
    }

    /** addNwJS(payload): the desktop build around the archive built so
        far. */
    method AddNwJS(payload: Archive) returns (r: Result<Archive, PackageError>)
      modifies this`events, this`requests, cache`entries
      ensures var step := NwjsStep(env, old(cache.State()), options, payload);
        r == step.outcome && events == old(events) + step.events
        && requests == old(requests) + step.requests && cache.entries == step.entries
    {
      var fetched := FetchLargeAsset(options.target);
      if fetched.Err? {
        return Err(FetchFailed(fetched.error));
      }
      var parsed := env.unzip(fetched.value);
      if parsed.None? {
        return Err(UnreadableArchive);
      }
      var runtime := parsed.value;
      if runtime.paths == [] {
        return Err(EmptyRuntime);
      }
      ghost var names := Shell(options.target, options.packageName, 0, 0, AppIcon(DefaultIconName, []), []);
      var zip := CopyRuntime(runtime, names);
      var icon := GetAppIcon(options.icon, env.defaultIcon);
      if icon.None? {
        return Err(IconUnavailable);
      }
      ghost var s := ShellFor(env, options, icon.value);
      CopiedNamesOnly(runtime, names, s);
      MountShell(zip, env, options, runtime, payload, icon.value, s);
      r := Ok(zip.View());
    }

    /** The first loop of addNwJS: the runtime's entries at their new
        paths. Only the target and the package name of `s` matter. */
    method CopyRuntime(runtime: Archive, ghost s: Shell) returns (zip: Zip)
      requires runtime.paths != []
      requires s.target == options.target && s.packageName == options.packageName
      ensures fresh(zip) && zip.Valid()
      ensures zip.View() == PutAll(EmptyArchive, CopiedRuntime(runtime, s))
    {
      ghost var copied := CopiedRuntime(runtime, s);
      CopiedAt(runtime, s);
      var isMac := options.target == "nwjs-mac";
      var isWindows := "nwjs-win" <= options.target;
      var prefix := FirstSegment(runtime.paths[0], '/');
      var packageName := options.packageName;
      zip := new Zip();
      var i := 0;
      while i < |runtime.paths|
        invariant i <= |runtime.paths|
        invariant zip.Valid() && zip.View() == PutAll(EmptyArchive, copied[..i])
        modifies zip
      {
        var path := runtime.paths[i];
        var newPath := Renamed(path, prefix, isMac, isWindows);
        assert copied[i] == (newPath, runtime.files[path]);
        ghost var before := zip.View();
        zip.Set(newPath, runtime.files[path]);
        assert zip.View() == Put(before, copied[i].0, copied[i].1);
        PutAllSnoc(EmptyArchive, copied, i);
        i := i + 1;
      }
      Whole(copied, i);
    }

    /** The body of the copy loop: the path an entry of the runtime gets. */
    method Renamed(path: string, prefix: string, isMac: bool, isWindows: bool) returns (newPath: string)
      requires isMac == (options.target == "nwjs-mac") && isWindows == ("nwjs-win" <= options.target)
      ensures newPath == RewritePath(path, prefix, options.target, options.packageName)
    {
      var packageName := options.packageName;
      newPath := ReplaceFirst(path, prefix, packageName);
      if isMac {
        newPath := ReplaceFirst(newPath, "nwjs.app", packageName + ".app");
      } else if isWindows {
        newPath := ReplaceFirst(newPath, "nw.exe", packageName + ".exe");
      }
    }

    /** package(). */
    method Package() returns (r: Result<Output, PackageError>)
      modifies this`script, this`events, this`requests, cache`entries
      ensures var step := PackageStep(env, old(cache.State()), options, project);
        var load := LoadStep(env, old(cache.State()), options.gamepad);
        r == step.outcome && events == old(events) + step.events
        && requests == old(requests) + step.requests && cache.entries == step.entries
        && script == (if load.outcome.Ok? then load.outcome.value else old(script))
    {
      ghost var store := cache.State();
      ghost var step := PackageStep(env, store, options, project);
      ghost var load := LoadStep(env, store, options.gamepad);
      var loaded := LoadResources();
      if loaded.Err? {
        assert step == Step(Err(load.outcome.error), load.events, load.requests, load.entries);
        return Err(loaded.error);
      }
      assert script == load.outcome.value;
      var html := env.pageHead(options) + ScriptElement(options.target, script)
        + env.pageTail(options, ProjectDataLoader(options.target, project.kind, env.dataUrl(project.blob)));
      if options.target != "html" {
        var base := ZipProject(html);
        if base.None? {
          assert step == Step(Err(UnreadableArchive), load.events, load.requests, load.entries);
          return Err(UnreadableArchive);
        }
        var archive := base.value;
        if "nwjs-" <= options.target {
          ghost var n := NwjsStep(env, store.(entries := load.entries), options, archive);
          ghost var e, q := events, requests;
          assert cache.State() == store.(entries := load.entries);
          var built := AddNwJS(archive);
          Regrouped(old(events), load.events, n.events);
          Regrouped(old(requests), load.requests, n.requests);
          if built.Err? {
            assert step.outcome == Err(built.error);
            return Err(built.error);
          }
          archive := built.value;
        }
        assert step.outcome == Ok(Output(Zipped(archive), GenerateFilename(options.windowTitle, "zip")));
        return Ok(Output(Zipped(archive), GenerateFilename(options.windowTitle, "zip")));
      }
      assert step.outcome == Ok(Output(Page(html), GenerateFilename(options.windowTitle, "html")));
      r := Ok(Output(Page(html), GenerateFilename(options.windowTitle, "html")));
    }

    /** The zip of package() before any desktop layout: the project's
        entries moved under assets/ (or the whole project as
        project.zip), then the page and the script. None when the project
        has to be read and cannot be. */
    method ZipProject(html: string) returns (r: Option<Archive>)
      requires html == PageFor(env, options, project, script)
      ensures r == BaseArchive(env, options, project, script)
    {
      var zip: Zip;
      if MovesToAssets(project, options.target) {
        var parsed := env.unzip(project.blob);
        if parsed.None? {
          return None;
        }
        zip := MoveToAssets(parsed.value);
      } else {
        zip := new Zip();
        zip.Set("project.zip", Data(project.blob));
      }
      zip.Set("index.html", Data(Text(html)));
      zip.Set("script.js", Data(Text(script)));
      r := Some(zip.View());
    }

    /** The move loop of package(): every entry of the read project goes
        under assets/, in the order of the keys it had when read. */
    method MoveToAssets(parsed: Archive) returns (zip: Zip)
      ensures fresh(zip) && zip.Valid() && zip.View() == MovedToAssets(parsed)
    {
      zip := new Zip.Load(parsed);
      var keys := zip.paths;
      var i := 0;
      while i < |keys|
        invariant i <= |keys| && keys == parsed.paths
        invariant zip.Valid() && zip.View() == MoveAll(parsed, keys[..i])
        modifies zip
      {
        var file := keys[i];
        assert file !in keys[..i] by {
          forall j | 0 <= j < i
            ensures keys[j] != file
          {
            assert keys[j] != keys[i];
          }
        }
        MoveAllKeeps(parsed, keys[..i], file);
        zip.Set(AssetsFolder + file, zip.files[file]);
        zip.Delete(file);
        MoveAllSnoc(parsed, keys, i);
        i := i + 1;
      }
      Whole(keys, i);
    }
  }
}
