/** The zip archives the packager builds, seen through the one view the
    code uses: the `files` map of a JSZip object, an ordered map from
    path to entry in insertion order. Compression, folder entries and the
    byte format are the codec's business and are not modelled. */
module Archive {
  import opened Blobs

  type Path = string

  /** The desktop shell's package.json, before JSON.stringify. */
  datatype Manifest = Manifest(name: string, main: string, width: int, height: int, icon: string)

  /** What an archive entry holds. */
  datatype Content = Data(blob: Blob) | PackageJson(manifest: Manifest)

  type Entry = (Path, Content)

  datatype Tree = Tree(paths: seq<Path>, files: map<Path, Content>)

  predicate Distinct(ps: seq<Path>) {
    forall i, j :: 0 <= i < j < |ps| ==> ps[i] != ps[j]
  }

  /** Every key is listed exactly once, in insertion order. */
  ghost predicate Wf(t: Tree) {
    Distinct(t.paths)
    && (forall i :: 0 <= i < |t.paths| ==> t.paths[i] in t.files)
    && (forall p {:trigger p in t.paths} :: p in t.files ==> p in t.paths)
  }

  type Archive = t: Tree | Wf(t) witness Tree([], map[])

  const EmptyArchive: Archive := Tree([], map[])

  /** A listed path is a key. */
  lemma Listed(t: Archive, p: Path)
    requires p in t.paths
    ensures p in t.files
  {
    var i :| 0 <= i < |t.paths| && t.paths[i] == p;
  }

  function Lookup(t: Archive, p: Path): Option<Content> {
    if p in t.files then Some(t.files[p]) else None
  }

  /** `files[p] = c`: the entry is replaced in place if the path exists,
      appended at the end otherwise. */
  function Put(t: Archive, p: Path, c: Content): Archive {
    Tree(if p in t.files then t.paths else t.paths + [p], t.files[p := c])
  }

  /** After a write the path holds the new content, every other path
      what it held, and the path is listed at the end if it is new. */
  lemma PutFacts(t: Archive, p: Path, c: Content)
    ensures Lookup(Put(t, p, c), p) == Some(c)
    ensures forall q :: q != p ==> Lookup(Put(t, p, c), q) == Lookup(t, q)
    ensures p in t.files ==> Put(t, p, c).paths == t.paths
    ensures p !in t.files ==> Put(t, p, c).paths == t.paths + [p]
  {
  }

  /** The list without `p`, order kept. */
  function Without(ps: seq<Path>, p: Path): (r: seq<Path>)
    ensures forall q :: q in r <==> q in ps && q != p
    ensures Distinct(ps) ==> Distinct(r)
  {
    if ps == [] then []
    else
      var rest := Without(ps[1..], p);
      if ps[0] == p then rest
      else
        assert Distinct(ps) ==> Distinct([ps[0]] + rest) by {
          if Distinct(ps) {
            assert forall j :: 1 <= j < |ps| ==> ps[0] != ps[j];
            assert ps[0] !in ps[1..] && Distinct(ps[1..]);
            DistinctCons(ps[0], rest);
          }
        }
        [ps[0]] + rest
  }

  lemma DistinctCons(x: Path, ps: seq<Path>)
    requires x !in ps && Distinct(ps)
    ensures Distinct([x] + ps)
  {
    var r := [x] + ps;
    forall i, j | 0 <= i < j < |r|
      ensures r[i] != r[j]
    {
      assert r[j] == ps[j - 1];
      if i > 0 {
        assert r[i] == ps[i - 1];
      }
    }
  }

  lemma {:induction false} WithoutAbsent(ps: seq<Path>, p: Path)
    requires p !in ps
    ensures Without(ps, p) == ps
  {
    if ps != [] {
      WithoutAbsent(ps[1..], p);
    }
  }

  /** `delete files[p]`: the entry goes, the others keep their order. */
  function Remove(t: Archive, p: Path): (r: Archive)
    ensures Lookup(r, p) == None
    ensures forall q :: q != p ==> Lookup(r, q) == Lookup(t, q)
    ensures r.paths == Without(t.paths, p)
  {
    var ps := Without(t.paths, p);
    assert forall i :: 0 <= i < |ps| ==> ps[i] in t.files - {p} by {
      forall i | 0 <= i < |ps|
        ensures ps[i] in t.files - {p}
      {
        assert ps[i] in ps;
        Listed(t, ps[i]);
      }
    }
    Tree(ps, t.files - {p})
  }

  /** Writing a sequence of entries one after the other. */
  function PutAll(t: Archive, es: seq<Entry>): Archive
    decreases |es|
  {
    if es == [] then t
    else Put(PutAll(t, es[..|es| - 1]), es[|es| - 1].0, es[|es| - 1].1)
  }

  /** One more write extends the run. */
  lemma PutAllSnoc(t: Archive, es: seq<Entry>, i: nat)
    requires i < |es|
    ensures PutAll(t, es[..i + 1]) == Put(PutAll(t, es[..i]), es[i].0, es[i].1)
  {
    assert es[..i + 1][..i] == es[..i];
  }

  /** The reference meaning of a sequence of writes at one path: the
      content of the last entry written there, if any. */
  function LastWrite(es: seq<Entry>, p: Path): Option<Content>
    decreases |es|
  {
    if es == [] then None
    else if es[|es| - 1].0 == p then Some(es[|es| - 1].1)
    else LastWrite(es[..|es| - 1], p)
  }

  /** Last write wins: after a run of writes, a path holds what was
      written there last, or what it held before if nothing was. */
  lemma {:induction false} PutAllLookup(t: Archive, es: seq<Entry>, p: Path)
    ensures Lookup(PutAll(t, es), p) == if LastWrite(es, p).Some? then LastWrite(es, p) else Lookup(t, p)
    decreases |es|
  {
    if es != [] {
      PutAllLookup(t, es[..|es| - 1], p);
    }
  }

  /** Writes never reorder or drop the entries that were already there,
      and a path is listed afterwards exactly when it was there before or
      was written. */
  lemma {:induction false} PutAllPaths(t: Archive, es: seq<Entry>)
    ensures |t.paths| <= |PutAll(t, es).paths|
    ensures PutAll(t, es).paths[..|t.paths|] == t.paths
    ensures forall p :: p in PutAll(t, es).files <==> p in t.files || LastWrite(es, p).Some?
    decreases |es|
  {
    if es != [] {
      PutAllPaths(t, es[..|es| - 1]);
      forall p ensures p in PutAll(t, es).files <==> p in t.files || LastWrite(es, p).Some? {
        PutAllLookup(t, es, p);
      }
    }
  }

  /** The entry at index `k` is the last one written at its path. */
  lemma {:induction false} LastWriteAt(es: seq<Entry>, k: nat)
    requires k < |es|
    requires forall j :: k < j < |es| ==> es[j].0 != es[k].0
    ensures LastWrite(es, es[k].0) == Some(es[k].1)
    decreases |es|
  {
    if k < |es| - 1 {
      LastWriteAt(es[..|es| - 1], k);
    }
  }

  /** A path no entry writes has no last write. */
  lemma {:induction false} LastWriteNone(es: seq<Entry>, p: Path)
    requires forall j :: 0 <= j < |es| ==> es[j].0 != p
    ensures LastWrite(es, p) == None
    decreases |es|
  {
    if es != [] {
      LastWriteNone(es[..|es| - 1], p);
    }
  }

  /** A path has a last write exactly when some entry writes it. */
  lemma {:induction false} LastWriteSome(es: seq<Entry>, p: Path)
    ensures LastWrite(es, p).Some? <==> exists j :: 0 <= j < |es| && es[j].0 == p
    decreases |es|
  {
    if es != [] {
      var init := es[..|es| - 1];
      LastWriteSome(init, p);
      if exists j :: 0 <= j < |init| && init[j].0 == p {
        var j :| 0 <= j < |init| && init[j].0 == p;
        assert es[j] == init[j];
      }
      if exists j :: 0 <= j < |es| && es[j].0 == p {
        var j :| 0 <= j < |es| && es[j].0 == p;
        if j < |init| {
          assert init[j] == es[j];
        }
      }
    }
  }

  /** Writes are looked up from the back: the later run decides, the
      earlier one only matters where the later one does not write. */
  lemma {:induction false} LastWriteConcat(es: seq<Entry>, more: seq<Entry>, p: Path)
    ensures LastWrite(es + more, p) == if LastWrite(more, p).Some? then LastWrite(more, p) else LastWrite(es, p)
    decreases |more|
  {
    if more == [] {
      assert es + more == es;
    } else {
      var all := es + more;
      assert all[..|all| - 1] == es + more[..|more| - 1];
      assert all[|all| - 1] == more[|more| - 1];
      LastWriteConcat(es, more[..|more| - 1], p);
    }
  }

  /** A JSZip object's `files` map, updated in place. */
  class Zip {
    var paths: seq<Path>
    var files: map<Path, Content>

    ghost predicate Valid()
      reads this
    {
      Wf(Tree(paths, files))
    }

    /** The archive the object currently holds. */
    function View(): Archive
      reads this
      requires Valid()
    {
      Tree(paths, files)
    }

    /** `new JSZip()`. */
    constructor ()
      ensures Valid() && View() == EmptyArchive
    {
      paths, files := [], map[];
    }

    /** The object `loadAsync` resolves to, for the archive it parsed. */
    constructor Load(t: Archive)
      ensures Valid() && View() == t
    {
      paths, files := t.paths, t.files;
    }

    /** `zip.files[p] = c` and `zip.file(p, c)` (whose implicit folder
        entries are not modelled). */
    method Set(p: Path, c: Content)
      requires Valid()
      modifies this
      ensures Valid() && View() == Put(old(View()), p, c)
    {
      if p !in files {
        paths := paths + [p];
      }
      files := files[p := c];
    }

    /** `delete zip.files[p]`. */
    method Delete(p: Path)
      requires Valid()
      modifies this
      ensures Valid() && View() == Remove(old(View()), p)
    {
      ghost var before := View();
      paths := Without(paths, p);
      files := files - {p};
      assert Tree(paths, files) == Remove(before, p);
    }
  }

  /** Write `k` of a run, done on a Zip that holds the writes before it:
      afterwards it holds the run up to and including write `k`. */
  method SetNext(zip: Zip, p: Path, c: Content, ghost writes: seq<Entry>, ghost k: nat)
    requires k < |writes| && writes[k] == (p, c)
    requires zip.Valid() && zip.View() == PutAll(EmptyArchive, writes[..k])
    modifies zip
    ensures zip.Valid() && zip.View() == PutAll(EmptyArchive, writes[..k + 1])
  {
    zip.Set(p, c);
    PutAllSnoc(EmptyArchive, writes, k);
  }
}
