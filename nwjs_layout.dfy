/** addNwJS: the archive of a desktop (NW.js) build. The runtime archive
    is copied with its top folder renamed to the package name and its
    launcher renamed after the package; the project payload, the icon
    and the shell's package.json are then mounted under the platform's
    data folder, inside the application bundle on macOS. */
module NwjsLayout {
  import opened Blobs
  import opened JsStrings
  import opened Archive
  import opened PackagerOptions

  predicate IsMac(target: string) { target == "nwjs-mac" }
  predicate IsWindows(target: string) { "nwjs-win" <= target }

  /** The settings of one desktop build. `icns` is the macOS icon
      converted from the PNG icon. */
  datatype Shell = Shell(target: string, packageName: string, width: int, height: int, icon: AppIcon, icns: seq<byte>)

  /** The runtime's top folder: the first `/`-segment of the first key. */
  function RuntimePrefix(runtime: Archive): (r: string)
    requires runtime.paths != []
    ensures r <= runtime.paths[0] && '/' !in r
    ensures r == runtime.paths[0] || runtime.paths[0][|r|] == '/'
  {
    FirstSegment(runtime.paths[0], '/')
  }

  /** The launcher renamed after the package: the first `nwjs.app` on
      macOS, the first `nw.exe` on Windows, nothing elsewhere. */
  function RenameLauncher(path: string, target: string, pkg: string): string
  {
    if IsMac(target) then ReplaceFirst(path, "nwjs.app", pkg + ".app")
    else if IsWindows(target) then ReplaceFirst(path, "nw.exe", pkg + ".exe")
    else path
  }

  /** Where a runtime entry is copied: the first occurrence of the top
      folder's name becomes the package name, then the launcher is
      renamed. */
  function RewritePath(path: string, prefix: string, target: string, pkg: string): string
  {
    RenameLauncher(ReplaceFirst(path, prefix, pkg), target, pkg)
  }

  /** A path holding neither the top folder's name nor a launcher name
      is copied unchanged. */
  lemma RewriteUntouched(path: string, prefix: string, target: string, pkg: string)
    requires !Contains(path, prefix) && !Contains(path, "nwjs.app") && !Contains(path, "nw.exe")
    ensures RewritePath(path, prefix, target, pkg) == path
  {
    ReplaceFirstSpec(path, prefix, pkg);
    ReplaceFirstSpec(path, "nwjs.app", pkg + ".app");
    ReplaceFirstSpec(path, "nw.exe", pkg + ".exe");
  }

  /** An entry under the top folder moves under the package's folder. */
  lemma RewriteAtRoot(path: string, prefix: string, target: string, pkg: string, moved: string)
    requires prefix <= path && moved == pkg + path[|prefix|..]
    ensures RewritePath(path, prefix, target, pkg) == RenameLauncher(moved, target, pkg)
  {
    ReplaceFirstAtFront(path, prefix, pkg);
  }

  /** On Windows the launcher `top/nw.exe` becomes `pkg/pkg.exe`, given
      a package name that does not itself hold `nw.exe`. */
  lemma WindowsLauncherRenamed(prefix: string, target: string, pkg: string, rest: string)
    requires IsWindows(target) && !Contains(pkg, "nw.exe")
    ensures RewritePath(prefix + "/nw.exe" + rest, prefix, target, pkg) == pkg + "/" + pkg + ".exe" + rest
  {
    var path := prefix + "/nw.exe" + rest;
    assert path[..|prefix|] == prefix;
    assert path[|prefix|..] == "/nw.exe" + rest;
    RewriteAtRoot(path, prefix, target, pkg, pkg + ['/'] + "nw.exe" + rest);
    WindowsRename(target, pkg, rest);
  }

  lemma WindowsRename(target: string, pkg: string, rest: string)
    requires IsWindows(target) && !Contains(pkg, "nw.exe")
    ensures RenameLauncher(pkg + ['/'] + "nw.exe" + rest, target, pkg) == pkg + "/" + pkg + ".exe" + rest
  {
    assert target[5] == 'w' && !IsMac(target);
    ReplaceFirstAfter(pkg, '/', "nw.exe", pkg + ".exe", rest);
  }

  /** On macOS the bundle `top/nwjs.app…` becomes `pkg/pkg.app…`, given
      a package name that does not itself hold `nwjs.app`. */
  lemma MacBundleRenamed(prefix: string, pkg: string, rest: string)
    requires !Contains(pkg, "nwjs.app")
    ensures RewritePath(prefix + "/nwjs.app" + rest, prefix, "nwjs-mac", pkg) == pkg + "/" + pkg + ".app" + rest
  {
    var path := prefix + "/nwjs.app" + rest;
    assert path[..|prefix|] == prefix;
    assert path[|prefix|..] == "/nwjs.app" + rest;
    RewriteAtRoot(path, prefix, "nwjs-mac", pkg, pkg + ['/'] + "nwjs.app" + rest);
    MacRename(pkg, rest);
  }

  lemma MacRename(pkg: string, rest: string)
    requires !Contains(pkg, "nwjs.app")
    ensures RenameLauncher(pkg + ['/'] + "nwjs.app" + rest, "nwjs-mac", pkg) == pkg + "/" + pkg + ".app" + rest
  {
    ReplaceFirstAfter(pkg, '/', "nwjs.app", pkg + ".app", rest);
  }

  /** The folder that holds the project's files. */
  function DataPrefix(target: string, pkg: string): string {
    if IsMac(target) then pkg + "/" + pkg + ".app/Contents/Resources/app.nw/" else pkg + "/"
  }

  function IcnsPath(pkg: string): string {
    pkg + "/" + pkg + ".app/Contents/Resources/app.icns"
  }

  function AppManifest(s: Shell): Manifest {
    Manifest(s.packageName, "index.html", s.width, s.height, s.icon.name)
  }

  /** The runtime's entries at their new paths, contents untouched, in
      the runtime's order. */
  function CopiedRuntime(runtime: Archive, s: Shell): seq<Entry>
    requires runtime.paths != []
  {
    var prefix := RuntimePrefix(runtime);
    seq(|runtime.paths|, i requires 0 <= i < |runtime.paths| =>
      (RewritePath(runtime.paths[i], prefix, s.target, s.packageName), runtime.files[runtime.paths[i]]))
  }

  /** The copy reads only the target and the package name of the shell. */
  lemma CopiedNamesOnly(runtime: Archive, s: Shell, t: Shell)
    requires runtime.paths != []
    requires s.target == t.target && s.packageName == t.packageName
    ensures CopiedRuntime(runtime, s) == CopiedRuntime(runtime, t)
  {
  }

  /** The payload's entries under `dataPrefix`, in the payload's order. */
  function MountedPayload(payload: Archive, dataPrefix: string): seq<Entry> {
    seq(|payload.paths|, i requires 0 <= i < |payload.paths| =>
      (dataPrefix + payload.paths[i], payload.files[payload.paths[i]]))
  }

  /** Entry `i` of the copy is runtime entry `i` at its new path. */
  lemma CopiedAt(runtime: Archive, s: Shell)
    requires runtime.paths != []
    ensures |CopiedRuntime(runtime, s)| == |runtime.paths|
    ensures forall i :: 0 <= i < |runtime.paths| ==>
      CopiedRuntime(runtime, s)[i]
        == (RewritePath(runtime.paths[i], RuntimePrefix(runtime), s.target, s.packageName), runtime.files[runtime.paths[i]])
  {
  }

  /** Entry `i` of the mounted payload is payload entry `i` under the
      data folder. */
  lemma MountedAt(payload: Archive, dataPrefix: string)
    ensures |MountedPayload(payload, dataPrefix)| == |payload.paths|
    ensures forall i :: 0 <= i < |payload.paths| ==>
      MountedPayload(payload, dataPrefix)[i] == (dataPrefix + payload.paths[i], payload.files[payload.paths[i]])
  {
  }

  function IcnsEntries(s: Shell): seq<Entry> {
    if IsMac(s.target) then [(IcnsPath(s.packageName), Data(Binary(s.icns)))] else []
  }

  function ShellFiles(s: Shell): seq<Entry> {
    var dp := DataPrefix(s.target, s.packageName);
    [(dp + s.icon.name, Data(Binary(s.icon.data))), (dp + "package.json", PackageJson(AppManifest(s)))]
  }

  /** Every write addNwJS makes, in order. */
  function LayoutWrites(s: Shell, runtime: Archive, payload: Archive): seq<Entry>
    requires runtime.paths != []
  {
    CopiedRuntime(runtime, s) + IcnsEntries(s)
    + MountedPayload(payload, DataPrefix(s.target, s.packageName)) + ShellFiles(s)
  }

  /** Where each write of the layout sits in the run: the copied runtime
      first, then the icns on macOS, the payload in its order, the icon
      and package.json. */
  lemma LayoutWritesAt(s: Shell, runtime: Archive, payload: Archive)
    requires runtime.paths != []
    ensures var writes := LayoutWrites(s, runtime, payload);
      var c := |runtime.paths|;
      var k := c + |IcnsEntries(s)|;
      var m := |payload.paths|;
      var dp := DataPrefix(s.target, s.packageName);
      |writes| == k + m + 2
      && writes[..c] == CopiedRuntime(runtime, s)
      && (IsMac(s.target) ==> writes[c] == (IcnsPath(s.packageName), Data(Binary(s.icns))))
      && writes[k..k + m] == MountedPayload(payload, dp)
      && writes[k + m..] == ShellFiles(s)
  {
    var writes := LayoutWrites(s, runtime, payload);
    var copied := CopiedRuntime(runtime, s);
    var dp := DataPrefix(s.target, s.packageName);
    var mounted := MountedPayload(payload, dp);
    CopiedAt(runtime, s);
    MountedAt(payload, dp);
    var k := |copied| + |IcnsEntries(s)|;
    assert writes == (copied + IcnsEntries(s)) + mounted + ShellFiles(s);
    assert writes[k..k + |mounted|] == mounted;
    assert writes[k + |mounted|..] == ShellFiles(s);
  }

  /** The archive addNwJS returns. */
  function Layout(s: Shell, runtime: Archive, payload: Archive): Archive
    requires runtime.paths != []
  {
    PutAll(EmptyArchive, LayoutWrites(s, runtime, payload))
  }

  lemma PrefixedDiffer(dp: string, a: string, b: string)
    requires a != b
    ensures dp + a != dp + b
  {
    assert (dp + a)[|dp|..] == a && (dp + b)[|dp|..] == b;
  }

  /** Looking a path up in the layout is looking up its last write. */
  lemma LayoutLookup(s: Shell, runtime: Archive, payload: Archive, p: Path)
    requires runtime.paths != []
    ensures Lookup(Layout(s, runtime, payload), p) == LastWrite(LayoutWrites(s, runtime, payload), p)
  {
    PutAllLookup(EmptyArchive, LayoutWrites(s, runtime, payload), p);
  }

  /** The three earlier runs of writes, the shell files left out. */
  function EarlyWrites(s: Shell, runtime: Archive, payload: Archive): seq<Entry>
    requires runtime.paths != []
  {
    CopiedRuntime(runtime, s) + IcnsEntries(s) + MountedPayload(payload, DataPrefix(s.target, s.packageName))
  }

  /** The shell's package.json is always present, at the data folder. */
  lemma LayoutManifest(s: Shell, runtime: Archive, payload: Archive)
    requires runtime.paths != []
    ensures Lookup(Layout(s, runtime, payload), DataPrefix(s.target, s.packageName) + "package.json")
      == Some(PackageJson(Manifest(s.packageName, "index.html", s.width, s.height, s.icon.name)))
  {
    var key := DataPrefix(s.target, s.packageName) + "package.json";
    LayoutLookup(s, runtime, payload, key);
    LastWriteConcat(EarlyWrites(s, runtime, payload), ShellFiles(s), key);
  }

  /** The icon sits beside the payload under its own name, unless that
      name is package.json. */
  lemma LayoutIcon(s: Shell, runtime: Archive, payload: Archive)
    requires runtime.paths != []
    requires s.icon.name != "package.json"
    ensures Lookup(Layout(s, runtime, payload), DataPrefix(s.target, s.packageName) + s.icon.name)
      == Some(Data(Binary(s.icon.data)))
  {
    var dp := DataPrefix(s.target, s.packageName);
    var key := dp + s.icon.name;
    PrefixedDiffer(dp, s.icon.name, "package.json");
    LayoutLookup(s, runtime, payload, key);
    LastWriteConcat(EarlyWrites(s, runtime, payload), ShellFiles(s), key);
    assert ShellFiles(s)[..1] == [(key, Data(Binary(s.icon.data)))];
  }

  /** No shell file is written at `dp + x` unless `x` is the icon's name
      or package.json. */
  lemma ShellFilesElsewhere(s: Shell, x: string)
    requires x != s.icon.name && x != "package.json"
    ensures LastWrite(ShellFiles(s), DataPrefix(s.target, s.packageName) + x) == None
  {
    var dp := DataPrefix(s.target, s.packageName);
    PrefixedDiffer(dp, s.icon.name, x);
    PrefixedDiffer(dp, "package.json", x);
    LastWriteNone(ShellFiles(s), dp + x);
  }

  /** No shell file is written outside the data folder. */
  lemma ShellFilesOutside(s: Shell, q: Path)
    requires !(DataPrefix(s.target, s.packageName) <= q)
    ensures LastWrite(ShellFiles(s), q) == None
  {
    LastWriteNone(ShellFiles(s), q);
  }

  /** In the mounted payload, `dp + p` holds the payload's entry at `p`. */
  lemma MountedLastWrite(payload: Archive, dp: string, p: Path)
    requires p in payload.files
    ensures LastWrite(MountedPayload(payload, dp), dp + p) == Some(payload.files[p])
  {
    var mounted := MountedPayload(payload, dp);
    MountedAt(payload, dp);
    assert p in payload.paths;
    var i :| 0 <= i < |payload.paths| && payload.paths[i] == p;
    forall j | i < j < |mounted|
      ensures mounted[j].0 != mounted[i].0
    {
      PrefixedDiffer(dp, payload.paths[j], p);
    }
    LastWriteAt(mounted, i);
  }

  /** The mounted payload writes nothing outside the data folder. */
  lemma MountedOutside(payload: Archive, dp: string, q: Path)
    requires !(dp <= q)
    ensures LastWrite(MountedPayload(payload, dp), q) == None
  {
    var mounted := MountedPayload(payload, dp);
    MountedAt(payload, dp);
    assert forall j :: 0 <= j < |mounted| ==> mounted[j].0[..|dp|] == dp;
    LastWriteNone(mounted, q);
  }

  /** Every payload entry lands under the data folder with its content,
      unless the icon or package.json is written over it afterwards. */
  lemma LayoutPayload(s: Shell, runtime: Archive, payload: Archive, p: Path)
    requires runtime.paths != []
    requires p in payload.files && p != s.icon.name && p != "package.json"
    ensures Lookup(Layout(s, runtime, payload), DataPrefix(s.target, s.packageName) + p) == Some(payload.files[p])
  {
    var dp := DataPrefix(s.target, s.packageName);
    LayoutLookup(s, runtime, payload, dp + p);
    ShellFilesElsewhere(s, p);
    LastWriteConcat(EarlyWrites(s, runtime, payload), ShellFiles(s), dp + p);
    MountedLastWrite(payload, dp, p);
    LastWriteConcat(CopiedRuntime(runtime, s) + IcnsEntries(s), MountedPayload(payload, dp), dp + p);
  }

  /** Nothing under the macOS data folder can be the icns path: the two
      part ways right after `app.`. */
  lemma IcnsOutsideData(pkg: string)
    ensures !(DataPrefix("nwjs-mac", pkg) <= IcnsPath(pkg))
  {
    var base := pkg + "/" + pkg + ".app/Contents/Resources/app.";
    assert DataPrefix("nwjs-mac", pkg) == base + "nw/";
    assert IcnsPath(pkg) == base + "icns";
    assert DataPrefix("nwjs-mac", pkg)[|base|] == 'n';
    assert IcnsPath(pkg)[|base|] == 'i';
  }

  /** On macOS the converted icon is the bundle's app.icns. */
  lemma LayoutIcns(s: Shell, runtime: Archive, payload: Archive)
    requires runtime.paths != []
    requires IsMac(s.target)
    ensures Lookup(Layout(s, runtime, payload), IcnsPath(s.packageName)) == Some(Data(Binary(s.icns)))
  {
    var dp := DataPrefix(s.target, s.packageName);
    var key := IcnsPath(s.packageName);
    IcnsOutsideData(s.packageName);
    LayoutLookup(s, runtime, payload, key);
    ShellFilesOutside(s, key);
    LastWriteConcat(EarlyWrites(s, runtime, payload), ShellFiles(s), key);
    MountedOutside(payload, dp, key);
    LastWriteConcat(CopiedRuntime(runtime, s) + IcnsEntries(s), MountedPayload(payload, dp), key);
    LastWriteConcat(CopiedRuntime(runtime, s), IcnsEntries(s), key);
  }

  /** A runtime entry keeps its content at its new path unless a later
      write lands on that path: a later runtime entry renamed to it, the
      icns on macOS, a payload entry, the icon or package.json. */
  lemma LayoutRuntimeEntry(s: Shell, runtime: Archive, payload: Archive, i: nat)
    requires runtime.paths != [] && i < |runtime.paths|
    requires var q := RewritePath(runtime.paths[i], RuntimePrefix(runtime), s.target, s.packageName);
      var dp := DataPrefix(s.target, s.packageName);
      && (forall j :: i < j < |runtime.paths| ==> RewritePath(runtime.paths[j], RuntimePrefix(runtime), s.target, s.packageName) != q)
      && (IsMac(s.target) ==> q != IcnsPath(s.packageName))
      && (forall j :: 0 <= j < |payload.paths| ==> dp + payload.paths[j] != q)
      && q != dp + s.icon.name && q != dp + "package.json"
    ensures Lookup(Layout(s, runtime, payload), RewritePath(runtime.paths[i], RuntimePrefix(runtime), s.target, s.packageName))
      == Some(runtime.files[runtime.paths[i]])
  {
    var dp := DataPrefix(s.target, s.packageName);
    var copied := CopiedRuntime(runtime, s);
    CopiedAt(runtime, s);
    var q := copied[i].0;
    LayoutLookup(s, runtime, payload, q);
    ShellHas(s, q);
    LastWriteConcat(EarlyWrites(s, runtime, payload), ShellFiles(s), q);
    MountedHas(payload, dp, q);
    LastWriteConcat(copied + IcnsEntries(s), MountedPayload(payload, dp), q);
    IcnsHas(s, q);
    LastWriteConcat(copied, IcnsEntries(s), q);
    LastWriteAt(copied, i);
  }

  /** A path is written by one of the four runs exactly when one of them
      has an entry for it. */
  lemma WrittenSomewhere(a: seq<Entry>, b: seq<Entry>, c: seq<Entry>, d: seq<Entry>, p: Path)
    ensures LastWrite(a + b + c + d, p).Some? <==>
      LastWrite(a, p).Some? || LastWrite(b, p).Some? || LastWrite(c, p).Some? || LastWrite(d, p).Some?
  {
    LastWriteConcat(a + b + c, d, p);
    LastWriteConcat(a + b, c, p);
    LastWriteConcat(a, b, p);
  }

  lemma CopiedHas(runtime: Archive, s: Shell, p: Path)
    requires runtime.paths != []
    ensures LastWrite(CopiedRuntime(runtime, s), p).Some? <==>
      exists i :: 0 <= i < |runtime.paths| && RewritePath(runtime.paths[i], RuntimePrefix(runtime), s.target, s.packageName) == p
  {
    var copied := CopiedRuntime(runtime, s);
    CopiedAt(runtime, s);
    LastWriteSome(copied, p);
    if exists i :: 0 <= i < |runtime.paths| && RewritePath(runtime.paths[i], RuntimePrefix(runtime), s.target, s.packageName) == p {
      var i :| 0 <= i < |runtime.paths| && RewritePath(runtime.paths[i], RuntimePrefix(runtime), s.target, s.packageName) == p;
      assert copied[i].0 == p;
    }
  }

  lemma MountedHas(payload: Archive, dp: string, p: Path)
    ensures LastWrite(MountedPayload(payload, dp), p).Some? <==>
      exists i :: 0 <= i < |payload.paths| && dp + payload.paths[i] == p
  {
    var mounted := MountedPayload(payload, dp);
    MountedAt(payload, dp);
    LastWriteSome(mounted, p);
    if exists i :: 0 <= i < |payload.paths| && dp + payload.paths[i] == p {
      var i :| 0 <= i < |payload.paths| && dp + payload.paths[i] == p;
      assert mounted[i].0 == p;
    }
  }

  /** Nothing else is in the archive: its paths are exactly the renamed
      runtime paths, the icns on macOS, and the payload, icon and
      package.json under the data folder. */
  lemma LayoutPaths(s: Shell, runtime: Archive, payload: Archive, p: Path)
    requires runtime.paths != []
    ensures p in Layout(s, runtime, payload).files <==>
      (exists i :: 0 <= i < |runtime.paths| && RewritePath(runtime.paths[i], RuntimePrefix(runtime), s.target, s.packageName) == p)
      || (IsMac(s.target) && p == IcnsPath(s.packageName))
      || (exists i :: 0 <= i < |payload.paths| && DataPrefix(s.target, s.packageName) + payload.paths[i] == p)
      || p == DataPrefix(s.target, s.packageName) + s.icon.name
      || p == DataPrefix(s.target, s.packageName) + "package.json"
  {
    var dp := DataPrefix(s.target, s.packageName);
    LayoutHas(s, runtime, payload, p);
    WrittenSomewhere(CopiedRuntime(runtime, s), IcnsEntries(s), MountedPayload(payload, dp), ShellFiles(s), p);
    CopiedHas(runtime, s, p);
    IcnsHas(s, p);
    MountedHas(payload, dp, p);
    ShellHas(s, p);
  }

  lemma LayoutHas(s: Shell, runtime: Archive, payload: Archive, p: Path)
    requires runtime.paths != []
    ensures p in Layout(s, runtime, payload).files <==> LastWrite(LayoutWrites(s, runtime, payload), p).Some?
  {
    LayoutLookup(s, runtime, payload, p);
  }

  lemma IcnsHas(s: Shell, p: Path)
    ensures LastWrite(IcnsEntries(s), p).Some? <==> IsMac(s.target) && p == IcnsPath(s.packageName)
  {
  }

  lemma ShellHas(s: Shell, p: Path)
    ensures LastWrite(ShellFiles(s), p).Some? <==>
      p == DataPrefix(s.target, s.packageName) + s.icon.name || p == DataPrefix(s.target, s.packageName) + "package.json"
  {
    LastWriteSome(ShellFiles(s), p);
  }
}
