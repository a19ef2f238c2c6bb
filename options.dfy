/** The packaging options the core reads, their defaults, and the pure
    naming helpers: the package name and window title derived from a
    project title, the icon name default, and the output file name. */
module PackagerOptions {
  import opened Blobs
  import opened JsStrings

  const FallbackPackageName: string := "packaged-project"
  const FallbackWindowTitle: string := "Packaged Project"
  const DefaultIconName: string := "icon.png"

  /** The icon the user picked, if any. */
  datatype IconInput = NoIcon | IconFile(name: string, data: seq<byte>)

  /** The icon the desktop shell gets: a file name and its bytes. */
  datatype AppIcon = AppIcon(name: string, data: seq<byte>)

  /** The options the core reads. Everything else the options object holds
      (turbo mode, colours, controls, cloud variables, ...) only feeds the
      HTML template and is not part of this model. */
  datatype Options = Options(
    target: string,
    stageWidth: int,
    stageHeight: int,
    icon: IconInput,
    packageName: string,
    windowTitle: string,
    gamepad: bool)

  predicate IsAsciiLetter(c: char) { IsAsciiLower(c) || IsAsciiUpper(c) }

  /** The characters `/[^\-a-z ]/gi` leaves in place. */
  predicate IsKeptTitleChar(c: char) { c == '-' || c == ' ' || IsAsciiLetter(c) }

  /** The characters a default package name is made of. */
  predicate IsPackageNameChar(c: char) { IsAsciiLower(c) || c == '-' }

  /** `s.replace(/[^\-a-z ]/gi, '')`. */
  function KeepTitleChars(s: string): (r: string)
    ensures forall i :: 0 <= i < |r| ==> IsKeptTitleChar(r[i]) && r[i] in s
  {
    if s == [] then []
    else (if IsKeptTitleChar(s[0]) then [s[0]] else []) + KeepTitleChars(s[1..])
  }

  /** getDefaultPackageNameFromTitle: the title up to its first `.`,
      stripped to ASCII letters, `-` and spaces, trimmed, spaces turned
      into `-`, lower-cased; "packaged-project" when nothing is left. */
  function DefaultPackageNameFromTitle(title: string): (r: string)
    ensures r != []
    ensures forall i :: 0 <= i < |r| ==> IsPackageNameChar(r[i])
  {
    var kept := Trim(KeepTitleChars(FirstSegment(title, '.')));
    var name := ToLowerAscii(ReplaceChar(kept, ' ', '-'));
    TrimKept(KeepTitleChars(FirstSegment(title, '.')));
    HyphenatedLowerChars(kept);
    if name == "" then FallbackPackageName else name
  }

  lemma TrimKept(s: string)
    requires forall i :: 0 <= i < |s| ==> IsKeptTitleChar(s[i])
    ensures forall i :: 0 <= i < |Trim(s)| ==> IsKeptTitleChar(Trim(s)[i])
  {
    var k := TrimSplit(s);
    assert forall i :: 0 <= i < |Trim(s)| ==> Trim(s)[i] == s[k + i];
  }

  lemma HyphenatedLowerChars(s: string)
    requires forall i :: 0 <= i < |s| ==> IsKeptTitleChar(s[i])
    ensures forall i :: 0 <= i < |s| ==> IsPackageNameChar(ToLowerAscii(ReplaceChar(s, ' ', '-'))[i])
  {
    var h := ReplaceChar(s, ' ', '-');
    assert forall i :: 0 <= i < |h| ==> h[i] == '-' || IsAsciiLetter(h[i]);
  }

  /** getWindowTitleFromProjectTitle: the trimmed title up to its first
      `.`; "Packaged Project" when that is empty. */
  function WindowTitleFromProjectTitle(title: string): (r: string)
    ensures r != []
    ensures '.' !in r
    ensures FirstSegment(Trim(title), '.') == [] ==> r == FallbackWindowTitle
    ensures FirstSegment(Trim(title), '.') != [] ==> r == FirstSegment(Trim(title), '.')
    ensures r == FallbackWindowTitle || (r <= Trim(title) && !IsJsWhitespace(r[0]))
  {
    var t := FirstSegment(Trim(title), '.');
    if t == "" then FallbackWindowTitle else t
  }

  /** A trimmed title with a dot gives the text before its first dot,
      or the fallback when that text is empty. */
  lemma WindowTitleUpToDot(title: string, a: string, b: string)
    requires Trim(title) == a + "." + b && '.' !in a
    ensures WindowTitleFromProjectTitle(title) == if a == [] then FallbackWindowTitle else a
  {
    FirstSegmentUpTo(a, '.', b);
  }

  /** A trimmed title without a dot is the window title itself, unless it
      is empty. */
  lemma WindowTitleNoDot(title: string)
    requires '.' !in Trim(title)
    ensures WindowTitleFromProjectTitle(title) == if Trim(title) == [] then FallbackWindowTitle else Trim(title)
  {
    FirstSegmentNoSeparator(Trim(title), '.');
  }

  /** getAppIcon: the picked file's bytes under its own name, or, when it
      has no name, under "icon.png"; with no file, the bundled default
      icon under "icon.png". The default icon is downloaded over xhr in
      the source: `defaultIcon` is that download's result, None when it
      fails, and then there is no icon. */
  function GetAppIcon(icon: IconInput, defaultIcon: Option<seq<byte>>): (r: Option<AppIcon>)
    ensures r.None? <==> icon.NoIcon? && defaultIcon.None?
    ensures r.Some? ==> r.value.name != ""
    ensures icon.IconFile? ==> r.Some? && r.value.data == icon.data
    ensures icon.IconFile? && icon.name != "" ==> r.Some? && r.value.name == icon.name
    ensures icon.NoIcon? && defaultIcon.Some? ==> r == Some(AppIcon(DefaultIconName, defaultIcon.value))
    ensures icon.IconFile? && icon.name == "" ==> r.Some? && r.value.name == DefaultIconName
  {
    match icon
    case NoIcon => if defaultIcon.None? then None else Some(AppIcon(DefaultIconName, defaultIcon.value))
    case IconFile(name, data) => Some(AppIcon(if name == "" then DefaultIconName else name, data))
  }

  /** DEFAULT_OPTIONS, restricted to the fields the core reads. */
  function DefaultOptions(): (o: Options)
    ensures o.packageName == FallbackPackageName
    ensures o.windowTitle == FallbackWindowTitle
    ensures o.target == "html" && o.stageWidth == 480 && o.stageHeight == 360
    ensures o.icon == NoIcon && !o.gamepad
  {
    EmptyTitleDefaults();
    Options("html", 480, 360, NoIcon,
      DefaultPackageNameFromTitle(""), WindowTitleFromProjectTitle(""), false)
  }

  /** The helpers applied to the empty title give the two fallbacks. */
  lemma EmptyTitleDefaults()
    ensures DefaultPackageNameFromTitle("") == FallbackPackageName
    ensures WindowTitleFromProjectTitle("") == FallbackWindowTitle
  {
    assert FirstSegment("", '.') == "";
    assert KeepTitleChars("") == "";
    assert Trim("") == "";
    assert ToLowerAscii(ReplaceChar("", ' ', '-')) == "";
  }

  /** generateFilename: the window title, a dot, the extension. A title
      without dots (as the window-title helper produces) can be read back
      from the file name. */
  function GenerateFilename(windowTitle: string, extension: string): (r: string)
    ensures |r| == |windowTitle| + 1 + |extension|
    ensures r[|r| - |extension|..] == extension
    ensures r[..|windowTitle|] == windowTitle && r[|windowTitle|] == '.' && r[|windowTitle| + 1..] == extension
    ensures '.' !in windowTitle ==> FirstSegment(r, '.') == windowTitle
  {
    var r := windowTitle + "." + extension;
    FirstSegmentUpToFor(windowTitle, extension);
    r
  }

  lemma FirstSegmentUpToFor(a: string, b: string)
    ensures '.' !in a ==> FirstSegment(a + "." + b, '.') == a
  {
    if '.' !in a {
      FirstSegmentUpTo(a, '.', b);
    }
  }

  /** A window title derived from a project title round-trips through
      the file name. */
  lemma WindowTitleFromFilename(title: string, extension: string)
    ensures FirstSegment(GenerateFilename(WindowTitleFromProjectTitle(title), extension), '.')
         == WindowTitleFromProjectTitle(title)
  {
  }

  // ---- the ASCII letters of a string, in order ----

  function Letters(s: string): string
  {
    if s == [] then [] else (if IsAsciiLetter(s[0]) then [s[0]] else []) + Letters(s[1..])
  }

  lemma {:induction false} LettersAppend(a: string, b: string)
    ensures Letters(a + b) == Letters(a) + Letters(b)
  {
    if a == [] {
      assert a + b == b;
    } else {
      var h := if IsAsciiLetter(a[0]) then [a[0]] else [];
      assert (a + b)[0] == a[0] && (a + b)[1..] == a[1..] + b;
      assert Letters(a + b) == h + Letters(a[1..] + b);
      LettersAppend(a[1..], b);
      assert Letters(a) == h + Letters(a[1..]);
      assert h + (Letters(a[1..]) + Letters(b)) == (h + Letters(a[1..])) + Letters(b);
    }
  }

  lemma {:induction false} LettersOfWhitespace(s: string)
    requires forall i :: 0 <= i < |s| ==> IsJsWhitespace(s[i])
    ensures Letters(s) == []
  {
    if s != [] {
      LettersOfWhitespace(s[1..]);
    }
  }

  lemma {:induction false} LettersKeep(s: string)
    ensures Letters(KeepTitleChars(s)) == Letters(s)
  {
    if s != [] {
      var head := if IsKeptTitleChar(s[0]) then [s[0]] else [];
      LettersAppend(head, KeepTitleChars(s[1..]));
      LettersKeep(s[1..]);
    }
  }

  lemma LettersTrim(s: string)
    ensures Letters(Trim(s)) == Letters(s)
  {
    var k := TrimSplit(s);
    var n := |Trim(s)|;
    var a, b, c := s[..k], s[k..k + n], s[k + n..];
    forall i | 0 <= i < |a|
      ensures IsJsWhitespace(a[i])
    {
      assert a[i] == s[i];
    }
    forall i | 0 <= i < |c|
      ensures IsJsWhitespace(c[i])
    {
      assert c[i] == s[k + n + i];
    }
    SplitThree(s, k, k + n);
    LettersAround(a, b, c);
  }

  lemma SplitThree(s: string, k: nat, m: nat)
    requires k <= m <= |s|
    ensures s == s[..k] + s[k..m] + s[m..]
  {
    assert s[..k] + s[k..m] == s[..m];
  }

  lemma LettersAround(a: string, b: string, c: string)
    requires forall i :: 0 <= i < |a| ==> IsJsWhitespace(a[i])
    requires forall i :: 0 <= i < |c| ==> IsJsWhitespace(c[i])
    ensures Letters(a + b + c) == Letters(b)
  {
    LettersAppend(a + b, c);
    LettersAppend(a, b);
    LettersOfWhitespace(a);
    LettersOfWhitespace(c);
  }

  lemma {:induction false} LettersReplaceSpace(s: string)
    ensures Letters(ReplaceChar(s, ' ', '-')) == Letters(s)
  {
    if s != [] {
      var r := ReplaceChar(s, ' ', '-');
      assert r[1..] == ReplaceChar(s[1..], ' ', '-');
      LettersReplaceSpace(s[1..]);
    }
  }

  lemma {:induction false} LettersLower(s: string)
    ensures Letters(ToLowerAscii(s)) == ToLowerAscii(Letters(s))
  {
    if s != [] {
      var r := ToLowerAscii(s);
      assert r[1..] == ToLowerAscii(s[1..]);
      LettersLower(s[1..]);
      var head := if IsAsciiLetter(s[0]) then [s[0]] else [];
      assert Letters(s) == head + Letters(s[1..]);
      assert ToLowerAscii(head + Letters(s[1..])) == ToLowerAscii(head) + ToLowerAscii(Letters(s[1..]));
    }
  }

  lemma KeepPreserves(s: string, i: nat)
    requires i < |s| && IsKeptTitleChar(s[i])
    ensures s[i] in KeepTitleChars(s)
    decreases i
  {
    if i > 0 {
      KeepPreserves(s[1..], i - 1);
    }
  }

  /** When the title's first segment holds no letter and no `-`, the
      name falls back to "packaged-project". */
  lemma PackageNameFallback(title: string)
    requires forall i :: 0 <= i < |FirstSegment(title, '.')| ==>
      !IsAsciiLetter(FirstSegment(title, '.')[i]) && FirstSegment(title, '.')[i] != '-'
    ensures DefaultPackageNameFromTitle(title) == FallbackPackageName
  {
    var seg := FirstSegment(title, '.');
    var k := KeepTitleChars(seg);
    assert forall i :: 0 <= i < |k| ==> k[i] == ' ';
    assert Trim(k) == [];
  }

  /** Otherwise the letters of the name are the letters of the title's
      first segment, lower-cased and in the same order. */
  lemma PackageNameLetters(title: string, i: nat)
    requires i < |FirstSegment(title, '.')|
    requires IsAsciiLetter(FirstSegment(title, '.')[i]) || FirstSegment(title, '.')[i] == '-'
    ensures Letters(DefaultPackageNameFromTitle(title)) == ToLowerAscii(Letters(FirstSegment(title, '.')))
  {
    var seg := FirstSegment(title, '.');
    var k := KeepTitleChars(seg);
    KeepPreserves(seg, i);
    KeptNotBlank(k, seg[i]);
    var kept := Trim(k);
    HyphenatedLetters(kept);
    assert DefaultPackageNameFromTitle(title) == ToLowerAscii(ReplaceChar(kept, ' ', '-'));
    LettersTrim(k);
    LettersKeep(seg);
  }

  lemma KeptNotBlank(k: string, c: char)
    requires c in k && !IsJsWhitespace(c)
    ensures Trim(k) != []
  {
    var j :| 0 <= j < |k| && k[j] == c;
    assert !IsJsWhitespace(k[j]);
  }

  lemma HyphenatedLetters(s: string)
    ensures Letters(ToLowerAscii(ReplaceChar(s, ' ', '-'))) == ToLowerAscii(Letters(s))
  {
    LettersLower(ReplaceChar(s, ' ', '-'));
    LettersReplaceSpace(s);
  }

  /** The filter keeps or drops each character on its own, in order: a
      single character is kept exactly when it is `-`, a space or an ASCII
      letter, and filtering distributes over concatenation. */
  lemma KeepTitleCharsOne(c: char)
    ensures KeepTitleChars([c]) == if IsKeptTitleChar(c) then [c] else []
  {
    assert [c][1..] == [];
  }

  lemma {:induction false} KeepTitleCharsAppend(a: string, b: string)
    ensures KeepTitleChars(a + b) == KeepTitleChars(a) + KeepTitleChars(b)
  {
    if a == [] {
      assert a + b == b;
    } else {
      var h := if IsKeptTitleChar(a[0]) then [a[0]] else [];
      assert (a + b)[0] == a[0] && (a + b)[1..] == a[1..] + b;
      assert KeepTitleChars(a + b) == h + KeepTitleChars(a[1..] + b);
      KeepTitleCharsAppend(a[1..], b);
      assert KeepTitleChars(a) == h + KeepTitleChars(a[1..]);
      assert h + (KeepTitleChars(a[1..]) + KeepTitleChars(b)) == (h + KeepTitleChars(a[1..])) + KeepTitleChars(b);
    }
  }

  lemma {:induction false} KeepAllKept(s: string)
    requires forall i :: 0 <= i < |s| ==> IsKeptTitleChar(s[i])
    ensures KeepTitleChars(s) == s
  {
    if s != [] {
      KeepAllKept(s[1..]);
    }
  }

  /** A default package name is its own default package name. */
  lemma PackageNameIdempotent(title: string)
    ensures DefaultPackageNameFromTitle(DefaultPackageNameFromTitle(title))
         == DefaultPackageNameFromTitle(title)
  {
    var r := DefaultPackageNameFromTitle(title);
    assert forall j :: 0 <= j < |r| ==> r[j] != '.';
    NameIsFixedPoint(r);
  }

  lemma NameIsFixedPoint(r: string)
    requires r != [] && '.' !in r
    requires forall i :: 0 <= i < |r| ==> IsPackageNameChar(r[i])
    ensures DefaultPackageNameFromTitle(r) == r
  {
    FirstSegmentNoSeparator(r, '.');
    KeepAllKept(r);
    assert !IsJsWhitespace(r[0]) && !IsJsWhitespace(r[|r| - 1]);
    assert Trim(KeepTitleChars(FirstSegment(r, '.'))) == r;
    HyphenatedIdentity(r);
  }

  lemma HyphenatedIdentity(r: string)
    requires forall i :: 0 <= i < |r| ==> IsPackageNameChar(r[i])
    ensures ToLowerAscii(ReplaceChar(r, ' ', '-')) == r
  {
    assert ReplaceChar(r, ' ', '-') == r;
    assert ToLowerAscii(r) == r;
  }
}
