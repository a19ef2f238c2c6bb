# TurboWarp packager core in Dafny

This project models the sequential core of the TurboWarp packager's
`Packager` object (`src/packager/packager.js`) and proves properties of it:

- fetching a large asset (the scaffolding script, the addons script, a
  desktop runtime archive): catalog lookup, the persistent asset cache,
  the download with an optional cache buster, the SHA-256 integrity check,
  the write-back to the cache, and the `large-asset-fetch` progress events;
- building the runtime script in `loadResources`: the copyright header, the
  scaffolding and (with the gamepad chunk) the addons, joined by newlines,
  with every `</script>` split;
- the zip archive `package()` builds: an sb3's entries moved under
  `assets/` (or the whole project as `project.zip`), then `index.html` and
  `script.js`; and, for `nwjs-*` targets, the desktop layout of `addNwJS`.
  The layout copies the runtime with its top folder renamed to the package
  name, renames the launcher (`nwjs.app` on macOS, `nw.exe` on Windows), and
  mounts the payload, the icon and `package.json` under the platform's data
  folder. On macOS the data folder lies inside the `.app` bundle, next to
  `app.icns`;
- the pure helpers: `escapeXML`, `getAppIcon`'s name defaulting,
  `generateFilename`, the loader choice of `generateGetProjectData`,
  `getDefaultPackageNameFromTitle`, `getWindowTitleFromProjectTitle`, and the
  package name and window title of `DEFAULT_OPTIONS`.

An archive is a JSZip `files` map: an ordered map from path to entry, in
insertion order, where a later write to a path replaces its entry in place
(`Archive.Tree`, with `Archive.Put`, `Archive.Remove` and `Archive.PutAll`).

The imperative parts are imperative Dafny:

- `Packaging.Packager` is a class holding the options, the project, the
  script, the event log and the request log.
- `AssetFetch.AssetCache` is the cache object.
- `Archive.Zip` is a JSZip object whose `files` map is updated in place.
- The loops of `addNwJS` and `package()` are `while` loops over a `Zip`.

Each method is proved equal to a reference function. `AssetFetch.Fetch`
specifies one fetch. `Packaging.LoadStep`, `Packaging.NwjsStep` and
`Packaging.PackageStep` specify the outcome, events, requests and cache
entries of the other operations. `NwjsLayout.Layout` and
`Assembly.MovedToAssets` specify the archives. The lemmas state what the
source promises about those functions.

Everything outside the core is a parameter, bundled in `Packaging.Env`:

- the asset catalog (`large-assets`);
- the network (`xhr`), as a function from a request to its progress values and its body;
- the SHA-256 function;
- the zip reader (`loadAsync`);
- `pngToAppleICNS`;
- the download of the default icon: its bytes, or none when it fails;
- the copyright header;
- `readAsURL`, the data URL of the project's bytes;
- the HTML template, as two functions of the options: the text before the
  element that runs the runtime script, and the text after it, which also
  receives the project loader.

Files:

- `blobs.dfy`: the value types (`Option`, `Result`, bytes, text or binary blobs).
- `js_strings.dfy`: the JavaScript string operations used (`indexOf`,
  first-occurrence `replace`, global `replace`, `split(sep)[0]`, `trim`,
  `toLowerCase`, `join`).
- `xml_escape.dfy`: `escapeXML`.
- `options.dfy`: the options, `getAppIcon`, the title helpers,
  `generateFilename` and `DEFAULT_OPTIONS`.
- `archive.dfy`: ordered archives and the `Zip` object.
- `asset_fetch.dfy`: `fetchLargeAsset` as a function, and the cache.
- `nwjs_layout.dfy`: the desktop layout `addNwJS` produces.
- `assembly.dfy`: the project loader, the move under `assets/`, the archive
  of `package()` and the runtime script.
- `packaging.dfy`: the `Packager` class and its operations.

## Model

| member | source | states |
|---|---|---|
| XmlEscape.EscapeXml | src/packager/packager.js:14-22 | the escaped text never contains `"`, `'`, `<` or `>` |
| XmlEscape.UnescapeEscape | src/packager/packager.js:14-22 | escaping loses nothing: decoding the five entities gives the original text back |
| XmlEscape.EscapeXmlAt | src/packager/packager.js:14-22 | each character is replaced in place by its own entity (or itself), between the escapes of what precedes and follows it |
| XmlEscape.EscapeXmlPlain | src/packager/packager.js:14-22 | a text without `"'<>&` passes through unchanged |
| XmlEscape.EscapeXmlAppend | src/packager/packager.js:14-22 | escaping works character by character: the escape of a concatenation is the concatenation of the escapes |
| XmlEscape.UnescapeEntity | src/packager/packager.js:16-20 | each of the five entities decodes to its character |
| PackagerOptions.GetAppIcon | src/packager/packager.js:38-53 | there is no icon exactly when no file is picked and the default icon's download failed; otherwise the name is never empty, a picked file keeps its bytes and (when it has one) its name, no file gives the downloaded default icon as `icon.png`, and a missing name is `icon.png` |
| PackagerOptions.GenerateFilename | src/packager/packager.js:249-251 | the name starts with the window title (dots and all), then one `.`, then the extension, and nothing else; a title without dots comes back as the first `.`-segment |
| PackagerOptions.DefaultPackageNameFromTitle | src/packager/packager.js:646-653 | the package name is non-empty and made only of lower-case ASCII letters and `-` |
| PackagerOptions.KeepTitleChars | src/packager/packager.js:649 | `replace(/[^\-a-z ]/gi, '')`: only `-`, spaces and ASCII letters of the input are kept; KeepTitleCharsOne and KeepTitleCharsAppend pin down the result as the input with every other character removed, in order |
| PackagerOptions.KeepTitleCharsOne | src/packager/packager.js:649 | one character is kept exactly when it is `-`, a space or an ASCII letter, and dropped otherwise |
| PackagerOptions.KeepTitleCharsAppend | src/packager/packager.js:649 | the filter of a concatenation is the concatenation of the filters, so every kept character keeps its place and its multiplicity |
| PackagerOptions.PackageNameFallback | src/packager/packager.js:646-653 | when the title's first segment has no letter and no `-`, the name is `packaged-project` |
| PackagerOptions.PackageNameLetters | src/packager/packager.js:646-653 | otherwise the letters of the name are the lower-cased letters of the title's first segment, in order |
| PackagerOptions.PackageNameIdempotent | src/packager/packager.js:646-653 | a default package name is its own default package name |
| PackagerOptions.NameIsFixedPoint | src/packager/packager.js:646-653 | any non-empty dot-free string of lower-case letters and `-` is left unchanged |
| PackagerOptions.WindowTitleFromProjectTitle | src/packager/packager.js:655-659 | the window title is non-empty and has no `.`; it is `Packaged Project` when the trimmed title's first `.`-segment is empty, and otherwise exactly that segment, a prefix of the trimmed title that does not start with whitespace |
| PackagerOptions.WindowTitleUpToDot | src/packager/packager.js:655-659 | when the trimmed title is `a.b` with no dot in `a`, the window title is `a`, or `Packaged Project` when `a` is empty |
| PackagerOptions.WindowTitleNoDot | src/packager/packager.js:655-659 | a trimmed title without a dot is the window title itself, or `Packaged Project` when it is empty |
| PackagerOptions.WindowTitleFromFilename | src/packager/packager.js:249-251 | a derived window title comes back out of the generated file name as its first `.`-segment |
| PackagerOptions.DefaultOptions | src/packager/packager.js:661-714 | the defaults the core reads: target `html`, stage 480x360, no icon, no gamepad, package name `packaged-project`, window title `Packaged Project` |
| PackagerOptions.EmptyTitleDefaults | src/packager/packager.js:702-703 | the two title helpers applied to the empty title give the two fallbacks |
| JsStrings.IndexOf | src/packager/packager.js:182 | the index of the first occurrence of the pattern, or none exactly when it does not occur |
| JsStrings.ReplaceFirst | src/packager/packager.js:182-186 | `String.prototype.replace` with a string pattern; its properties are ReplaceFirstSpec, ReplaceFirstAtFront and ReplaceFirstAfter |
| JsStrings.ReplaceFirstSpec | src/packager/packager.js:182-186 | `replace` with a string pattern rewrites only the first occurrence, and leaves a text without the pattern unchanged |
| JsStrings.ReplaceAllRemoves | src/packager/packager.js:139 | a global replacement whose replacement cannot rebuild the pattern leaves no occurrence of it |
| JsStrings.ReplaceAll | src/packager/packager.js:139 | `replace` with a global literal pattern, matches found left to right without overlap; its properties are ReplaceAllFirst, ReplaceAllAbsent and ReplaceAllRemoves |
| JsStrings.ReplaceAllAbsent | src/packager/packager.js:139 | a global replacement of an absent pattern changes nothing |
| JsStrings.ReplaceAllFirst | src/packager/packager.js:139 | a global replacement keeps the text before the first occurrence, puts the replacement in its place, and carries on after it; with ReplaceAllAbsent this fixes the whole output |
| JsStrings.FirstSegment | src/packager/packager.js:172 | `split(sep)[0]`: a prefix without the separator that ends at the first separator or at the end |
| JsStrings.FirstSegmentUpTo | src/packager/packager.js:648 | the first segment of `a + sep + b` is `a` when `a` has no separator |
| JsStrings.Trim | src/packager/packager.js:650 | the trimmed text neither starts nor ends with whitespace, is empty only for all-whitespace text, and leaves a trimmed text alone |
| JsStrings.TrimSplit | src/packager/packager.js:656 | the trimmed text is a slice of the original with only whitespace around it |
| JsStrings.ToLowerAscii | src/packager/packager.js:652 | the length is kept, no ASCII upper-case letter is left, each upper-case letter becomes the same letter in lower case, and every other character is unchanged |
| JsStrings.ToLowerAsciiIdempotent | src/packager/packager.js:652 | lower-casing an already lower-cased text changes nothing |
| JsStrings.ReplaceChar | src/packager/packager.js:651 | the length is kept, every `c` becomes `d` (so no `c` is left when they differ), and every other character is unchanged |
| JsStrings.JoinThree | src/packager/packager.js:139 | three texts joined by a separator are the texts with the separator between them |
| JsStrings.Join | src/packager/packager.js:134-139 | `Array.prototype.join`; JoinTwo and JoinThree give its value on the two and three texts of the script |
| AssetFetch.CacheLookup | src/packager/packager.js:92-101 | a cached value is used exactly when `get` does not throw and the value is present and truthy |
| AssetFetch.RequestFor | src/packager/packager.js:103-114 | the URL is `src` followed by `?` and the cache buster exactly when the asset asks for a cache buster; type and size come from the asset |
| AssetFetch.FetchContract | src/packager/packager.js:78-131 | an unknown name fails with no event, request or write. Otherwise the value is the truthy cached one, else the download. A missing value fails with `RequestFailed` and the URL. A value whose digest differs from the catalog's fails with `HashMismatch`, carrying both digests. Any other value is handed back. The events are 0, then 0.5 on a hit or the download's reports, then 1 on success. A hit sends no request and a miss exactly one. A failure writes nothing. `set` is called exactly for downloaded values that passed the check |
| AssetFetch.Fetch | src/packager/packager.js:78-131 | the reference meaning of one fetch: outcome, progress values, requests, value written and cache entries; its properties are FetchContract and the lemmas below it |
| AssetFetch.FetchAgainHitsCache | src/packager/packager.js:92-128 | after a successful download, fetching again from the cache it left gives the same value with no request and events 0, 0.5, 1 |
| AssetFetch.ReadFailureIsMiss | src/packager/packager.js:92-101 | a throwing `get` behaves like a cache without the asset |
| AssetFetch.WriteFailureHarmless | src/packager/packager.js:122-128 | a throwing `set` changes nothing but the cache entries |
| AssetFetch.MismatchedEntrySticks | src/packager/packager.js:116-121 | a cached value that fails the digest fails without a request and is never replaced, so every later fetch fails the same way |
| AssetFetch.AssetCache.Get | src/packager/packager.js:93 | `get` throws when the cache cannot be read, and otherwise gives the stored value if any |
| AssetFetch.AssetCache.Set | src/packager/packager.js:124 | `set` throws and stores nothing when the cache cannot be written, and otherwise stores the value |
| Archive.PutFacts | src/packager/packager.js:34-36 | after a write the path holds the new entry and every other path what it held; a new path is listed last, an existing one keeps its place |
| Archive.Put | src/packager/packager.js:34-36 | one write to the `files` map; its properties are PutFacts |
| Archive.PutAll | src/packager/packager.js:179-217 | a run of writes in order; its properties are PutAllLookup (last write wins) and PutAllPaths |
| Archive.Remove | src/packager/packager.js:608 | after `delete` the path is gone, every other path keeps its entry, and the order of the rest is kept |
| Archive.PutAllLookup | src/packager/packager.js:179-217 | last write wins: after a run of writes each path holds what was written there last, or what it held before |
| Archive.PutAllPaths | src/packager/packager.js:179-217 | writes never drop or reorder existing entries, and a path is present exactly when it was before or was written |
| Archive.LastWriteConcat | src/packager/packager.js:179-217 | of two runs of writes the later one decides wherever it writes |
| Archive.Zip.Set | src/packager/packager.js:34-36 | `files[p] = c` on the object is `Put` on its archive |
| Archive.Zip.Delete | src/packager/packager.js:608 | `delete files[p]` on the object is `Remove` on its archive |
| NwjsLayout.RuntimePrefix | src/packager/packager.js:172 | the top folder is the first key up to its first `/` |
| NwjsLayout.RewritePath | src/packager/packager.js:182-187 | the new path of a runtime entry: the first occurrence of the top folder becomes the package name, then the launcher is renamed; its properties are RewriteUntouched, RewriteAtRoot, WindowsLauncherRenamed and MacBundleRenamed |
| NwjsLayout.RenameLauncher | src/packager/packager.js:183-187 | the first `nwjs.app` becomes `pkg.app` on `nwjs-mac`, the first `nw.exe` becomes `pkg.exe` on targets starting `nwjs-win`, nothing elsewhere; its properties are WindowsRename and MacRename |
| NwjsLayout.DataPrefix | src/packager/packager.js:203-210 | the data folder: `pkg/pkg.app/Contents/Resources/app.nw/` on macOS, `pkg/` elsewhere; used by LayoutPayload, LayoutIcon and LayoutManifest |
| NwjsLayout.IcnsPath | src/packager/packager.js:206 | `pkg/pkg.app/Contents/Resources/app.icns`; its properties are IcnsOutsideData and LayoutIcns |
| NwjsLayout.LayoutWrites | src/packager/packager.js:179-217 | every write of addNwJS, in order; its properties are LayoutWritesAt |
| NwjsLayout.Layout | src/packager/packager.js:142-220 | the archive addNwJS returns; its properties are LayoutPaths, LayoutRuntimeEntry, LayoutIcns, LayoutPayload, LayoutIcon and LayoutManifest |
| NwjsLayout.RewriteUntouched | src/packager/packager.js:179-190 | a runtime path holding neither the top folder's name nor a launcher name is copied unchanged |
| NwjsLayout.RewriteAtRoot | src/packager/packager.js:182 | a path under the top folder moves under the package's folder before the launcher is renamed |
| NwjsLayout.WindowsLauncherRenamed | src/packager/packager.js:182-187 | on Windows `top/nw.exe…` becomes `pkg/pkg.exe…` |
| NwjsLayout.MacBundleRenamed | src/packager/packager.js:182-185 | on macOS `top/nwjs.app…` becomes `pkg/pkg.app…` |
| NwjsLayout.LayoutWritesAt | src/packager/packager.js:179-217 | the writes come in order: the copied runtime, the icns on macOS, the payload, then the icon and package.json |
| NwjsLayout.LayoutRuntimeEntry | src/packager/packager.js:179-217 | a runtime entry keeps its content at its new path unless a later write lands there: a later runtime entry renamed to the same path, the icns on macOS, a payload entry, the icon or package.json |
| NwjsLayout.LayoutIcns | src/packager/packager.js:204-207 | on macOS the converted icon is at `pkg/pkg.app/Contents/Resources/app.icns` |
| NwjsLayout.LayoutPayload | src/packager/packager.js:213-215 | every payload entry `p` lands at data folder + `p` with its content, unless the icon or package.json is written over it |
| NwjsLayout.LayoutIcon | src/packager/packager.js:216 | the icon is in the data folder under its name, unless that name is `package.json` |
| NwjsLayout.LayoutManifest | src/packager/packager.js:193-217 | the data folder always holds package.json naming the package, `index.html`, the stage size and the icon's name |
| NwjsLayout.CopiedNamesOnly | src/packager/packager.js:172-190 | the copy loop reads only the target and the package name, so it can run before the icon is had |
| NwjsLayout.LayoutPaths | src/packager/packager.js:179-217 | the layout holds exactly the renamed runtime paths, the icns on macOS, and the payload, icon and package.json under the data folder |
| NwjsLayout.IcnsOutsideData | src/packager/packager.js:206-207 | the icns path never lies in the macOS data folder |
| Assembly.ProjectDataLoader | src/packager/packager.js:253-273 | inline data exactly for `html`, carrying the project's data URL, checkpoint 0.9; otherwise `./project.zip` exactly for a blob project or `zip-one-asset`, else `./assets/project.json`, with a weight so that the bar reaches 1 or 0.2 |
| Assembly.DownloadProgressBounds | src/packager/packager.js:282-286 | the download's progress stays between 0.1 and its end point, and reaches the end point on the last byte |
| Assembly.MoveAllLookup | src/packager/packager.js:606-609 | with no key under `assets/` at first, the loop removes each visited key and puts its entry under `assets/`; other keys are untouched |
| Assembly.MoveAll | src/packager/packager.js:606-609 | the move loop over a list of keys, as written; its properties are MoveAllLookup, MoveAllKeeps and MoveAllUnder |
| Assembly.MovedToAssets | src/packager/packager.js:604-609 | the loop over the keys the sb3 had when read; its properties are MovedExactly and MovedAllUnderAssets |
| Assembly.MovedExactly | src/packager/packager.js:606-609 | when no key lies under `assets/` to begin with: `assets/p` holds what `p` held, and no other key is left |
| Assembly.MovedAllUnderAssets | src/packager/packager.js:606-609 | whatever the archive held, every key after the loop lies under `assets/` |
| Assembly.SingleProjectEntry | src/packager/packager.js:610-613 | without the move the project's part is the single `project.zip` entry holding the project |
| Assembly.ProjectEntries | src/packager/packager.js:604-613 | the project's part of the archive; its properties are SingleProjectEntry, MovedExactly and LoaderMatchesArchive |
| Assembly.Assembled | src/packager/packager.js:614-615 | `index.html` holds the page, `script.js` the script, and every other path what it held |
| Assembly.LoaderMatchesArchive | src/packager/packager.js:265-273 | the loader of a zip asks for `./project.zip` exactly when the archive has that entry, for both kinds of project |
| Assembly.ScriptHasNoClosingTag | src/packager/packager.js:139 | the runtime script never contains `</script>` |
| Assembly.ScriptSplitsEachTag | src/packager/packager.js:139 | the first `</script>` of the joined texts becomes `</scri'+'pt>`, the text before it is kept, and the rest is treated the same way |
| Assembly.ScriptText | src/packager/packager.js:133-139 | the header, scaffolding and addons joined by newlines with every `</script>` split; its properties are ScriptLayout, ScriptSplitsEachTag and ScriptHasNoClosingTag |
| Assembly.ScriptLayout | src/packager/packager.js:133-139 | the script is the header, the scaffolding and the addons (when present) joined by newlines, and is exactly that join when no `</script>` occurs in it |
| Packaging.TaggedAt | src/packager/packager.js:83-88 | one `large-asset-fetch` event per progress value, tagged with the asset's name, in order |
| Packaging.FetchStep | src/packager/packager.js:78-131 | fetchLargeAsset's outcome, tagged events, requests and cache entries; its properties are those of AssetFetch.Fetch (FetchContract) |
| Packaging.LoadStep | src/packager/packager.js:133-140 | loadResources' outcome, events, requests and cache entries; its properties are LoadedScript and LoadStepGamepad |
| Packaging.NwjsStep | src/packager/packager.js:142-220 | addNwJS's outcome and log: the fetched runtime, read and laid out by NwjsLayout.Layout around the icon, or the error; its properties are NwjsStepOutcome and DesktopStartsPage |
| Packaging.NwjsStepOutcome | src/packager/packager.js:142-191 | addNwJS logs exactly the runtime fetch's events, requests and cache entries; it succeeds exactly when the runtime is fetched, readable and not empty and an icon is had, and fails with `IconUnavailable` exactly when the runtime is ready, no icon file is picked and the default icon's download failed |
| Packaging.BaseArchive | src/packager/packager.js:602-615 | the zip before any desktop layout, or none when the sb3 cannot be read; its properties are ZipContents and ZipAssets |
| Packaging.LoaderFor | src/packager/packager.js:253-273 | the loader the page embeds, with the data URL of the project's bytes; its properties are those of ProjectDataLoader |
| Packaging.PageFor | src/packager/packager.js:303-600 | the page around the runtime script's element; its properties are HtmlPageCarriesScript, ZipPageLoadsScriptFile, ZipContents and DesktopStartsPage |
| Assembly.ScriptElement | src/packager/packager.js:439 | the inline script for `html`, a reference to `script.js` otherwise; its properties are HtmlPageCarriesScript and ZipPageLoadsScriptFile |
| Packaging.PackageStep | src/packager/packager.js:602-642 | package()'s outcome and log; its properties are OutputName, HtmlPageCarriesScript, ZipContents, ZipAssets and DesktopStartsPage |
| Packaging.LoadedScript | src/packager/packager.js:133-140 | loading succeeds exactly when the scaffolding (and, with the gamepad chunk, the addons) is fetched; the script has no `</script>`, and holds the addons exactly when the gamepad chunk is on |
| Packaging.LoadStepGamepad | src/packager/packager.js:135-138 | with the gamepad chunk the load is the two fetches in a row: their events, requests and the later cache |
| Packaging.OutputName | src/packager/packager.js:621-642 | the output is the page exactly for `html`, named after the window title with `.html` or `.zip` |
| Packaging.HtmlPageCarriesScript | src/packager/packager.js:439 | the html output exists exactly when the load succeeds, and is the template's head, `<script>`, the loaded script, `</script>` and the template's tail around an inline loader holding the project's data URL; the script holds no `</script>`, so its element cannot end early |
| Packaging.ZipPageLoadsScriptFile | src/packager/packager.js:439 | the `index.html` of a zip that is not a desktop build runs `<script src="script.js"></script>` and downloads the project |
| Packaging.ZipContents | src/packager/packager.js:602-616 | a zip that is not a desktop build has the page and the script at the root, and its loader finds the project |
| Packaging.ZipAssets | src/packager/packager.js:604-609 | when no key of the sb3 lies under `assets/` to begin with, the zip keeps every project entry `p` at `assets/p` |
| Packaging.DesktopStartsPage | src/packager/packager.js:617-619 | in a desktop build package.json names `index.html`, and the data folder's `index.html` is the rendered page unless the icon is named `index.html` |
| Packaging.Packager.constructor | src/packager/packager.js:72-76 | a new packager holds the given world, cache and project (the project is given at construction, not set later), the default options, an empty script and empty logs |
| Packaging.Packager.Dispatch | src/packager/packager.js:83-88 | dispatching a progress value appends one `large-asset-fetch` event for the asset, and changes nothing else |
| Packaging.Packager.FetchLargeAsset | src/packager/packager.js:78-131 | the method returns what `Fetch` gives and appends its events and requests, leaving the cache as `Fetch` says |
| Packaging.Packager.ReadCache | src/packager/packager.js:92-101 | the cache attempt gives `CacheLookup` and reports 0.5 exactly on a hit |
| Packaging.Packager.Download | src/packager/packager.js:102-114 | the download sends `RequestFor`, logs it and reports the network's progress values |
| Packaging.Packager.LoadResources | src/packager/packager.js:133-140 | the method does what `LoadStep` says; the script is set on success and unchanged on failure |
| Packaging.Packager.AddNwJS | src/packager/packager.js:142-220 | the method does what `NwjsStep` says, including the `IconUnavailable` failure after the runtime is copied |
| Packaging.Packager.CopyRuntime | src/packager/packager.js:172-190 | the new zip holds the runtime's copied entries, written in the runtime's order |
| Packaging.Packager.Renamed | src/packager/packager.js:182-187 | a runtime path gets the path `RewritePath` gives |
| Packaging.MountShell | src/packager/packager.js:192-217 | after the copy, and with the icon in hand, the zip ends as the whole layout around that icon |
| Packaging.PlaceAfterCopy | src/packager/packager.js:203-217 | after the copy the icns, the payload and the shell files are written as the next entries of the run |
| Packaging.PlaceIcns | src/packager/packager.js:203-210 | the icns is written on macOS and the data folder is the platform's |
| Packaging.MountPayload | src/packager/packager.js:213-215 | the payload's entries are written under the data folder in their order |
| Packaging.PlaceShellFiles | src/packager/packager.js:216-217 | the icon and package.json are the last two writes |
| Packaging.Packager.Package | src/packager/packager.js:602-642 | the method does what `PackageStep` says, and leaves the loaded script behind |
| Packaging.Packager.ZipProject | src/packager/packager.js:602-615 | the zip before the desktop layout is `BaseArchive` |
| Packaging.Packager.MoveToAssets | src/packager/packager.js:604-609 | the move loop over the keys as first read gives `MovedToAssets` |

## Left out

- The HTML page is modelled only around the runtime script. The rest of
  the template literal of `package()`, the cloud-variable providers and
  the favicon are two parameters, `Env.pageHead` and `Env.pageTail`. Both
  receive the options, and `pageTail` also receives the project loader,
  which carries the data URL for the `html` target. How that JavaScript
  text is written out is not modelled.
- JSZip is not modelled: reading (`loadAsync`) is `Env.unzip`, and
  `generateAsync` (DEFLATE, UNIX permissions, the `zip-progress` events)
  is not modelled. The output is the archive itself. The implicit folder
  entries `zip.file` creates are not modelled.
- `sha256` runs in a worker through Comlink; it is the parameter
  `Env.hash`. `pngToAppleICNS` is `Env.toIcns`. The file readers are
  assumed to succeed: `readAsArrayBuffer` is the identity on the picked
  file's bytes, and `readAsURL` is `Env.dataUrl`.
- `xhr` is `Env.network`. A request's progress values are opaque input,
  and a failed request is a response without a body. The download of the
  default icon in `getAppIcon` is the parameter `Env.defaultIcon`, none
  when it fails, which makes addNwJS fail with `IconUnavailable`. It is
  not a large-asset request, so neither it nor its progress is logged.
- A project is of one of the two types `package()` tells apart
  (`Assembly.ProjectType`): an `sb3` or a `blob`.
- The `large-assets` catalog and the `cache` module are not part of this
  model. The catalog is a map. The cache is a map whose `get` and `set`
  either always or never throw during one packaging, plus the
  cache-buster token.
- `JSON.stringify` of the desktop manifest: `package.json` holds the
  manifest record (name, main, width, height, icon name), not its text.
- Floats are reals. The progress checkpoints 0.1, 0.2 and 0.9 are exact,
  so `1 - 0.1` is exactly 0.9 here.
- JavaScript's `$` patterns in `replace` are not modelled. Package names
  are taken literally.
- `Object.keys` lists integer-like keys first. The model lists keys in
  insertion order only.
- Options other than the target, the stage size, the icon, the package
  name, the window title and the gamepad chunk are not modelled, because
  only the HTML template reads them.
- `this.project` is never null in the model. Calling `package()` before
  a project is set is not modelled.
- The `html` target of `package()` is modelled as the rendered page. No
  `Blob` is built around it.
- A text asset is turned into a string as `texts.join` does. Binary values
  are one kind of value here, so a binary value contributes
  `[object ArrayBuffer]`. The model does not tell an `arraybuffer` download
  from a `blob` download, which `join` would write as `[object Blob]`. When the
  scaffolding and addons download as text, the script is unaffected.
- Assembly.MovedExactly: stated only when no key of the sb3 already lies
  under `assets/`, for the reason given under Assembly.MoveAllLookup.
- Packaging.ZipAssets: stated only when no key of the sb3 already lies
  under `assets/`, for the reason given under Assembly.MoveAllLookup.
- Assembly.MoveAllLookup: the exact effect of the move loop is proved only
  when no key of the sb3 already lies under `assets/`. When one does, a
  key moved earlier can be moved again or overwritten, and the model
  follows the loop as written (`Assembly.MoveAll`). Only
  `Assembly.MovedAllUnderAssets` is stated for that case.
- NwjsLayout.LayoutPayload: stated for payload entries other than the
  icon's name and `package.json`. Those two are written over, last write
  wins, as `NwjsLayout.LayoutIcon` and `NwjsLayout.LayoutManifest` state.
- Packaging.DesktopStartsPage: an icon named `index.html` replaces the
  page in the data folder, and the lemma excludes that case.
