/** The non-HTML part of package(): the project's archive (the sb3's own
    entries moved under `assets/`, or the whole project as one
    `project.zip`), the page and the runtime script beside it; the loader
    the page uses to find the project again; and the runtime script built
    by loadResources. */
module Assembly {
  import opened Blobs
  import opened JsStrings
  import opened Archive

  // ---- progress checkpoints of the generated page ----

  const ProgressLoadedScripts: real := 0.1
  const ProgressLoadedJsonButNeedAssets: real := 0.2
  const ProgressFetchedInlineDataButNotLoaded: real := 0.9

  /** A project's `type`: an sb3 archive, or any other project file kept
      as one blob. */
  datatype ProjectType = Sb3Project | BlobProject

  /** The project being packaged: its type and data. */
  datatype Project = Project(kind: ProjectType, blob: Blob)

  /** How the page obtains the project: inlined as the data URL `url`,
      reporting `checkpoint` once fetched, or downloaded from `src`, the
      download filling `weight` of the progress bar after the scripts'
      checkpoint. */
  datatype Loader = InlineData(url: string, checkpoint: real) | Download(src: string, weight: real)

  /** generateGetProjectData's choice of source and progress weight;
      `url` is the project's data URL, which only the html page embeds. */
  function ProjectDataLoader(target: string, kind: ProjectType, url: string): (r: Loader)
    ensures r.InlineData? <==> target == "html"
    ensures r.InlineData? ==> r.url == url && r.checkpoint == ProgressFetchedInlineDataButNotLoaded
    ensures r.Download? ==> (r.src == "./project.zip" <==> kind == BlobProject || target == "zip-one-asset")
    ensures r.Download? && r.src != "./project.zip" ==> r.src == "./assets/project.json"
    // a finished download of the whole project ends the bar; a finished
    // download of project.json reaches the assets checkpoint
    ensures r.Download? && r.src == "./project.zip" ==> ProgressLoadedScripts + r.weight == 1.0
    ensures r.Download? && r.src != "./project.zip" ==> ProgressLoadedScripts + r.weight == ProgressLoadedJsonButNeedAssets
  {
    if target == "html" then InlineData(url, ProgressFetchedInlineDataButNotLoaded)
    else if kind == BlobProject || target == "zip-one-asset" then Download("./project.zip", 1.0 - ProgressLoadedScripts)
    else Download("./assets/project.json", ProgressLoadedJsonButNeedAssets - ProgressLoadedScripts)
  }

  /** The value the page's download reports for `loaded` of `total` bytes. */
  function DownloadProgress(weight: real, loaded: real, total: real): real
    requires total > 0.0
  {
    ProgressLoadedScripts + (loaded / total) * weight
  }

  /** The download's progress stays between the scripts' checkpoint and
      the download's own end point, and reaches the end point when the
      last byte arrives. */
  lemma DownloadProgressBounds(target: string, kind: ProjectType, url: string, loaded: real, total: real)
    requires ProjectDataLoader(target, kind, url).Download?
    requires 0.0 <= loaded <= total && total > 0.0
    ensures var l := ProjectDataLoader(target, kind, url);
      ProgressLoadedScripts <= DownloadProgress(l.weight, loaded, total) <= ProgressLoadedScripts + l.weight
      && DownloadProgress(l.weight, total, total) == ProgressLoadedScripts + l.weight
  {
    var l := ProjectDataLoader(target, kind, url);
    var f := loaded / total;
    assert 0.0 <= f <= 1.0 by {
      assert f * total == loaded;
    }
    assert 0.0 <= f * l.weight <= l.weight;
    assert total / total == 1.0;
  }

  // ---- moving an sb3's entries under assets/ ----

  const AssetsFolder: string := "assets/"

  /** One round of the move loop: `files['assets/' + f] = files[f]`,
      then `delete files[f]`. */
  function MoveOne(t: Archive, f: Path): Archive {
    if f in t.files then Remove(Put(t, AssetsFolder + f, t.files[f]), f) else t
  }

  /** The move loop over a list of keys, in order. */
  function MoveAll(t: Archive, keys: seq<Path>): Archive
    decreases |keys|
  {
    if keys == [] then t else MoveOne(MoveAll(t, keys[..|keys| - 1]), keys[|keys| - 1])
  }

  /** The loop over the keys the archive had when it started. */
  function MovedToAssets(t: Archive): Archive {
    MoveAll(t, t.paths)
  }

  /** One more round extends the loop. */
  lemma MoveAllSnoc(t: Archive, ks: seq<Path>, i: nat)
    requires i < |ks|
    ensures MoveAll(t, ks[..i + 1]) == MoveOne(MoveAll(t, ks[..i]), ks[i])
  {
    assert ks[..i + 1][..i] == ks[..i];
  }

  /** A key the loop has not visited yet is still there. */
  lemma {:induction false} MoveAllKeeps(t: Archive, ks: seq<Path>, q: Path)
    ensures q in t.files && q !in ks ==> q in MoveAll(t, ks).files
    decreases |ks|
  {
    if ks != [] {
      var init := ks[..|ks| - 1];
      assert ks == init + [ks[|ks| - 1]];
      MoveAllKeeps(t, init, q);
    }
  }

  /** The reference meaning of the loop over `ks`, key by key: a visited
      key is gone; a visited key's entry sits under assets/; any other
      key is as it was. */
  function MovedLookup(t: Archive, ks: seq<Path>, q: Path): Option<Content> {
    if q in ks then None
    else if AssetsFolder <= q && q[|AssetsFolder|..] in ks then Lookup(t, q[|AssetsFolder|..])
    else Lookup(t, q)
  }

  /** When no key lies under assets/ to begin with and the loop visits
      existing keys once each, it does what MovedLookup says. */
  lemma {:induction false} MoveAllLookup(t: Archive, ks: seq<Path>, q: Path)
    requires NoAssetKeys(t) && Distinct(ks)
    requires forall k :: k in ks ==> k in t.files
    ensures Lookup(MoveAll(t, ks), q) == MovedLookup(t, ks, q)
    decreases |ks|
  {
    if ks != [] {
      var init, f := ks[..|ks| - 1], ks[|ks| - 1];
      assert ks == init + [f];
      assert Distinct(init) && f !in init;
      MoveAllLookup(t, init, q);
      MoveAllLookup(t, init, f);
      MoveOneLookup(t, init, f, MoveAll(t, init), q);
    }
  }

  lemma MoveOneLookup(t: Archive, ks: seq<Path>, f: Path, cur: Archive, q: Path)
    requires NoAssetKeys(t) && f !in ks && f in t.files
    requires forall k :: k in ks ==> k in t.files
    requires Lookup(cur, q) == MovedLookup(t, ks, q) && Lookup(cur, f) == MovedLookup(t, ks, f)
    ensures Lookup(MoveOne(cur, f), q) == MovedLookup(t, ks + [f], q)
  {
    var moved := AssetsFolder + f;
    assert AssetsFolder <= moved && moved[|AssetsFolder|..] == f;
    assert !(AssetsFolder <= f);
    assert Lookup(cur, f) == Lookup(t, f);
    assert q in ks + [f] <==> q in ks || q == f;
    if q == moved {
      assert q !in t.files;
    } else if q != f && AssetsFolder <= q {
      assert q == AssetsFolder + q[|AssetsFolder|..];
      assert q[|AssetsFolder|..] in ks + [f] <==> q[|AssetsFolder|..] in ks;
    }
  }

  /** Whatever the archive held, every key left after the loop was not
      visited, or lies under assets/. */
  lemma {:induction false} MoveAllUnder(t: Archive, ks: seq<Path>, q: Path)
    ensures q in MoveAll(t, ks).files ==> (q in t.files && q !in ks) || AssetsFolder <= q
    decreases |ks|
  {
    if ks != [] {
      var init, f := ks[..|ks| - 1], ks[|ks| - 1];
      assert ks == init + [f];
      MoveAllUnder(t, init, q);
      if f in MoveAll(t, init).files && q == AssetsFolder + f {
        assert AssetsFolder <= q;
      }
    }
  }

  /** After the loop every key lies under assets/. */
  lemma MovedAllUnderAssets(t: Archive, p: Path)
    ensures p in MovedToAssets(t).files ==> AssetsFolder <= p
  {
    MoveAllUnder(t, t.paths, p);
  }

  /** No key of the archive lies under assets/ already. */
  predicate NoAssetKeys(t: Archive) {
    forall p :: p in t.files ==> !(AssetsFolder <= p)
  }

  /** With no key under assets/ to begin with, the loop moves the archive
      exactly: `assets/p` holds what `p` held, and nothing else is left. */
  lemma MovedExactly(t: Archive, p: Path)
    requires NoAssetKeys(t)
    ensures Lookup(MovedToAssets(t), AssetsFolder + p) == Lookup(t, p)
    ensures p in MovedToAssets(t).files <==> AssetsFolder <= p && p[|AssetsFolder|..] in t.files
  {
    var moved := AssetsFolder + p;
    assert AssetsFolder <= moved && moved[|AssetsFolder|..] == p;
    MoveAllLookup(t, t.paths, moved);
    MoveAllLookup(t, t.paths, p);
    assert moved !in t.files && moved !in t.paths;
  }

  // ---- the archive package() builds ----

  /** The project's part of the archive: the sb3's entries under assets/
      (`parsed` is what loadAsync read from the sb3), or the project as
      one `project.zip`. */
  function ProjectEntries(project: Project, target: string, parsed: Archive): Archive {
    if MovesToAssets(project, target) then MovedToAssets(parsed)
    else Put(EmptyArchive, "project.zip", Data(project.blob))
  }

  /** Whether package() unpacks the project and moves its entries. */
  predicate MovesToAssets(project: Project, target: string) {
    project.kind == Sb3Project && target != "zip-one-asset"
  }

  /** Without the move, the project's part is the single `project.zip`
      entry holding the project's data. */
  lemma SingleProjectEntry(project: Project, target: string, parsed: Archive)
    requires !MovesToAssets(project, target)
    ensures ProjectEntries(project, target, parsed).paths == ["project.zip"]
    ensures forall q :: Lookup(ProjectEntries(project, target, parsed), q) == (if q == "project.zip" then Some(Data(project.blob)) else None)
  {
  }

  /** The page and the runtime script are written at the root, after the
      project's entries. */
  function Assembled(base: Archive, html: string, script: string): (r: Archive)
    ensures Lookup(r, "index.html") == Some(Data(Text(html)))
    ensures Lookup(r, "script.js") == Some(Data(Text(script)))
    ensures forall q :: q != "index.html" && q != "script.js" ==> Lookup(r, q) == Lookup(base, q)
  {
    Put(Put(base, "index.html", Data(Text(html))), "script.js", Data(Text(script)))
  }

  /** The page looks for the project where package() put it: the loader
      asks for ./project.zip exactly when the archive has that entry. */
  lemma LoaderMatchesArchive(project: Project, target: string, url: string, parsed: Archive, html: string, script: string)
    requires target != "html"
    ensures ProjectDataLoader(target, project.kind, url).src == "./project.zip"
      <==> "project.zip" in Assembled(ProjectEntries(project, target, parsed), html, script).files
  {
    var base := ProjectEntries(project, target, parsed);
    var r := Assembled(base, html, script);
    assert Lookup(r, "project.zip") == Lookup(base, "project.zip");
    if MovesToAssets(project, target) {
      MovedAllUnderAssets(parsed, "project.zip");
      assert "project.zip"[0] != AssetsFolder[0];
      assert "project.zip" !in base.files;
    } else {
      assert Lookup(base, "project.zip") == Some(Data(project.blob));
    }
  }

  // ---- the runtime script ----

  const ScriptOpen: string := "<script>"
  const ScriptClose: string := "</script>"
  const ScriptCloseSplit: string := "</scri'+'pt>"
  const ScriptFileElement: string := "<script src=\"script.js\"></script>"

  /** The page's element that runs the runtime script: the script itself
      for the html target, a reference to script.js for every other. */
  function ScriptElement(target: string, script: string): string {
    if target == "html" then ScriptOpen + script + ScriptClose else ScriptFileElement
  }

  /** The runtime's texts joined by newlines: header, scaffolding, and
      the addons when the gamepad chunk is on. */
  function ScriptParts(header: string, scaffolding: string, addons: Option<string>): seq<string> {
    [header, scaffolding] + (if addons.Some? then [addons.value] else [])
  }

  /** loadResources' script: the joined texts with every `</script>`
      split so that the page's inline script cannot end early. */
  function ScriptText(header: string, scaffolding: string, addons: Option<string>): string {
    ReplaceAll(Join(ScriptParts(header, scaffolding, addons), "\n"), ScriptClose, ScriptCloseSplit)
  }

  /** The script never contains `</script>`. */
  lemma ScriptHasNoClosingTag(header: string, scaffolding: string, addons: Option<string>)
    ensures !Contains(ScriptText(header, scaffolding, addons), ScriptClose)
  {
    assert ScriptClose[1..] == "/script>";
    assert ScriptCloseSplit[1..] == "/scri'+'pt>";
    assert ScriptCloseSplit[..|ScriptClose|] == "</scri'+'";
    ReplaceAllRemoves(Join(ScriptParts(header, scaffolding, addons), "\n"), ScriptClose, ScriptCloseSplit);
  }

  /** Each `</script>` of the joined texts, from the first on, becomes
      `</scri'+'pt>`, and the text before it is kept as it was. */
  lemma ScriptSplitsEachTag(header: string, scaffolding: string, addons: Option<string>, i: nat)
    requires FirstOccurrence(Join(ScriptParts(header, scaffolding, addons), "\n"), ScriptClose, i)
    ensures var joined := Join(ScriptParts(header, scaffolding, addons), "\n");
      ScriptText(header, scaffolding, addons)
        == joined[..i] + ScriptCloseSplit + ReplaceAll(joined[i + |ScriptClose|..], ScriptClose, ScriptCloseSplit)
  {
    ReplaceAllFirst(Join(ScriptParts(header, scaffolding, addons), "\n"), ScriptClose, ScriptCloseSplit, i);
  }

  /** The texts come in order, separated by newlines; when no
      `</script>` occurs in them the script is exactly their join. */
  lemma ScriptLayout(header: string, scaffolding: string, addons: Option<string>)
    ensures addons.None? ==> Join(ScriptParts(header, scaffolding, addons), "\n") == header + "\n" + scaffolding
    ensures addons.Some? ==>
      Join(ScriptParts(header, scaffolding, addons), "\n") == header + "\n" + scaffolding + "\n" + addons.value
    ensures !Contains(Join(ScriptParts(header, scaffolding, addons), "\n"), ScriptClose) ==>
      ScriptText(header, scaffolding, addons) == Join(ScriptParts(header, scaffolding, addons), "\n")
  {
    if addons.Some? {
      assert ScriptParts(header, scaffolding, addons) == [header, scaffolding, addons.value];
      JoinThree(header, scaffolding, addons.value, "\n");
    } else {
      assert ScriptParts(header, scaffolding, addons) == [header, scaffolding];
      JoinTwo(header, scaffolding, "\n");
    }
    var joined := Join(ScriptParts(header, scaffolding, addons), "\n");
    if !Contains(joined, ScriptClose) {
      ReplaceAllAbsent(joined, ScriptClose, ScriptCloseSplit);
    }
  }
}
