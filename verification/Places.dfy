/** Where the cache keeps its files: names below a directory per content id, the paths they resolve to,
    and which names stay where they belong. */
module Places {
  import opened Base
  import opened Worlds

  /** `root / id / name`. */
  datatype Place = Place(id: string, name: string)

  // ---------------------------------------------------------------- names

  /** One name of a directory entry, not a path. */
  predicate PlainComponent(name: string) {
    name != "" && name != "." && name != ".." && '/' !in name
  }

  predicate EndsWith(s: string, suffix: string) {
    |suffix| <= |s| && s[|s| - |suffix|..] == suffix
  }

  /** Names under which content is published: not the lock file and not a temporary. */
  predicate FinalName(name: string) {
    name != ".lock" && !EndsWith(name, ".tmp")
  }

  /** The file system can hold this name in a directory. */
  predicate PlainName(name: string) {
    PlainComponent(name) && '\0' !in name && FinalName(name)
  }

  /** The place is a file directly inside the directory of a digest. */
  predicate OwnFile(p: Place) {
    IsHex(p.id) && PlainComponent(p.name) && '\0' !in p.name
  }

  /** A place content may be published at. */
  predicate PlainPlace(p: Place) {
    OwnFile(p) && FinalName(p.name)
  }

  function DownloadTmp(name: string): (tmp: string)
    ensures !FinalName(tmp)
  {
    TmpSuffix(name, ".download.tmp");
    name + ".download.tmp"
  }

  function AssembleTmp(name: string): (tmp: string)
    ensures !FinalName(tmp)
  {
    TmpSuffix(name, ".assemble.tmp");
    name + ".assemble.tmp"
  }

  lemma TmpSuffix(name: string, suffix: string)
    requires EndsWith(suffix, ".tmp")
    ensures EndsWith(name + suffix, ".tmp")
  {
    var s := name + suffix;
    assert s[|s| - 4..] == suffix[|suffix| - 4..];
  }

  /** Temporaries of different names, or of different writers, are different files. */
  lemma TemporariesDiffer(a: string, b: string)
    ensures DownloadTmp(a) == DownloadTmp(b) || AssembleTmp(a) == AssembleTmp(b) ==> a == b
    ensures DownloadTmp(a) != AssembleTmp(b) && DownloadTmp(a) + ".tmp" != AssembleTmp(b)
  {
    var d, e, part := DownloadTmp(a), AssembleTmp(b), DownloadTmp(a) + ".tmp";
    assert d[..|a|] == a && DownloadTmp(b)[..|b|] == b && AssembleTmp(a)[..|a|] == a && e[..|b|] == b;
    assert d[|d| - 5] == ".download.tmp"[8] == 'd' && e[|e| - 5] == ".assemble.tmp"[8] == 'e';
    assert part[|part| - 5] == d[|d| - 1] == ".download.tmp"[12] == 'p';
  }

  /** Temporaries of a plain place, and the part files of their downloads, lie in the same directory. */
  lemma TemporariesInside(p: Place)
    requires PlainPlace(p)
    ensures OwnFile(Place(p.id, DownloadTmp(p.name))) && OwnFile(Place(p.id, AssembleTmp(p.name)))
    ensures OwnFile(Place(p.id, DownloadTmp(p.name) + ".tmp"))
    ensures DownloadTmp(p.name) != p.name && AssembleTmp(p.name) != p.name
  {
    Lengthened(p.name, ".download.tmp");
    Lengthened(p.name, ".assemble.tmp");
    Lengthened(DownloadTmp(p.name), ".tmp");
  }

  lemma Lengthened(name: string, suffix: string)
    requires PlainComponent(name) && '\0' !in name && |suffix| >= 4 && '/' !in suffix && '\0' !in suffix
    ensures PlainComponent(name + suffix) && '\0' !in name + suffix && name + suffix != name
  {
    assert |name + suffix| >= 5;
  }

  // ---------------------------------------------------------------- paths

  /** Names from the root of the file system down. */
  type Path = seq<string>

  /** What lies between the slashes. */
  function Components(s: string): (cs: seq<string>)
    ensures cs != [] && forall c :: c in cs ==> '/' !in c
  {
    if s == "" then [""]
    else
      var rest := Components(s[1..]);
      if s[0] == '/' then [""] + rest else [[s[0]] + rest[0]] + rest[1..]
  }

  function Follow(at: Path, c: string): Path {
    if c == "" || c == "." then at else if c == ".." then (if at == [] then [] else at[..|at| - 1]) else at + [c]
  }

  /** Following names from a directory on, without symbolic links. */
  function Walk(at: Path, cs: seq<string>): Path
    decreases cs
  {
    if cs == [] then at else Walk(Follow(at, cs[0]), cs[1..])
  }

  /** `base / s`: an absolute operand starts over at the root. */
  function JoinPath(base: Path, s: string): Path {
    Walk(if s != "" && s[0] == '/' then [] else base, Components(s))
  }

  /** The file that `root / id / name` names. */
  function Resolve(root: Path, p: Place): Path {
    JoinPath(JoinPath(root, p.id), p.name)
  }

  lemma {:induction false} OneComponent(s: string)
    requires '/' !in s
    ensures Components(s) == [s]
  {
    if s != "" {
      OneComponent(s[1..]);
      assert [s[0]] + s[1..] == s;
    }
  }

  lemma JoinPlain(base: Path, s: string)
    requires PlainComponent(s)
    ensures JoinPath(base, s) == base + [s]
  {
    OneComponent(s);
    assert s[0] in s;
    assert Walk(Follow(base, s), [s][1..]) == base + [s];
  }

  /** A walk ends below some prefix of where it started, through names it followed. */
  lemma {:induction false} WalkSplits(at: Path, cs: seq<string>) returns (n: nat)
    ensures var end := Walk(at, cs);
            n <= |at| && n <= |end| && end[..n] == at[..n] && forall i :: n <= i < |end| ==> end[i] in cs
    decreases cs
  {
    if cs == [] {
      n := |at|;
    } else {
      var next := Follow(at, cs[0]);
      n := WalkSplits(next, cs[1..]);
      if n > |at| {
        assert next == at + [cs[0]];
        n := |at|;
      }
    }
  }

  lemma HexIsPlain(h: string)
    requires IsHex(h)
    ensures PlainComponent(h) && '\0' !in h && FinalName(h)
  {
    TmpHasDot(h);
    assert ".lock"[0] == '.' && "."[0] == '.' && ".."[0] == '.';
  }

  lemma TmpHasDot(h: string)
    ensures EndsWith(h, ".tmp") ==> |h| >= 4 && h[|h| - 4] == '.'
  {
    var dot := ".tmp"[0];
    if EndsWith(h, ".tmp") {
      assert h[|h| - 4..][0] == dot;
    }
  }

  /** Under a digest, `root / id / name` is the file `name` of the directory `root / id` iff the name is
      a plain component: every other name leads somewhere else. */
  lemma OwnFileIffPlain(root: Path, id: string, name: string)
    requires IsHex(id)
    ensures Resolve(root, Place(id, name)) == root + [id] + [name] <==> PlainComponent(name)
  {
    HexIsPlain(id);
    JoinPlain(root, id);
    var dir := root + [id];
    if PlainComponent(name) {
      JoinPlain(dir, name);
    } else if '/' in name {
      var from: Path := if name[0] == '/' then [] else dir;
      var n := WalkSplits(from, Components(name));
      var end := Resolve(root, Place(id, name));
      assert |end| > |dir| ==> '/' !in end[|dir|];
      assert (dir + [name])[|dir|] == name;
    } else {
      OneComponent(name);
      assert Walk(Follow(dir, name), [name][1..]) == Follow(dir, name);
      assert |Follow(dir, name)| < |dir + [name]|;
    }
  }

  /** Different places inside digest directories are different files. */
  lemma PlacesAreFiles(root: Path, p: Place, q: Place)
    requires OwnFile(p) && OwnFile(q) && Resolve(root, p) == Resolve(root, q)
    ensures p == q
  {
    OwnFileIffPlain(root, p.id, p.name);
    OwnFileIffPlain(root, q.id, q.name);
    var n := |root|;
    assert (root + [p.id] + [p.name])[n] == p.id && (root + [q.id] + [q.name])[n] == q.id;
    assert (root + [p.id] + [p.name])[n + 1] == p.name && (root + [q.id] + [q.name])[n + 1] == q.name;
  }

  /** The files the cache keeps beside the digest directories: chunk files, manifests, the index. */
  predicate Reserved(root: Path, path: Path) {
    |path| > |root| && path[..|root|] == root && path[|root|] in {"chunks", "manifests", "index.sqlite3"}
  }

  lemma OwnFileNotReserved(root: Path, p: Place)
    requires OwnFile(p)
    ensures !Reserved(root, Resolve(root, p))
  {
    OwnFileIffPlain(root, p.id, p.name);
    assert (root + [p.id] + [p.name])[|root|] == p.id;
    assert "chunks"[1] == 'h' && "manifests"[0] == 'm' && "index.sqlite3"[0] == 'i';
    assert p.id[0] == p.id[0];
  }

  /** The file that is locked while a digest's directory is worked on. */
  function LockPath(root: Path, id: string): Path {
    JoinPath(JoinPath(root, id), ".lock")
  }

  /** No content is ever published over a lock file; the name ".lock", were it allowed, would do just that. */
  lemma LockApart(root: Path, p: Place, id: string)
    requires IsHex(id)
    ensures Resolve(root, Place(id, ".lock")) == LockPath(root, id)
    ensures PlainPlace(p) ==> Resolve(root, p) != LockPath(root, id)
  {
    HexIsPlain(id);
    LockIsComponent();
    JoinPlain(root, id);
    JoinPlain(root + [id], ".lock");
    if PlainPlace(p) {
      OwnFileIffPlain(root, p.id, p.name);
      assert (root + [p.id] + [p.name])[|root| + 1] == p.name && (root + [id] + [".lock"])[|root| + 1] == ".lock";
    }
  }

  lemma LockIsComponent()
    ensures PlainComponent(".lock")
  {
    assert |".lock"| == 5;
  }

  // ---------------------------------------------------------------- names that lead elsewhere

  /** A parent step: every digest shares one file outside its directory. An absolute name: any file of
      the system. A nested name: a directory nobody creates. An empty name: the directory itself. */
  lemma StrayNames(root: Path, id: string)
    requires IsHex(id)
    ensures Resolve(root, Place(id, "../x")) == root + ["x"]
    ensures Resolve(root, Place(id, "/etc/passwd")) == ["etc", "passwd"]
    ensures Resolve(root, Place(id, "sub/f.bin")) == root + [id] + ["sub", "f.bin"]
    ensures Resolve(root, Place(id, "")) == root + [id]
  {
    hide JoinPath, IsHex;
    HexIsPlain(id);
    JoinPlain(root, id);
    StrayParent(root, id);
    StrayAbsolute(root + [id]);
    StrayNested(root + [id]);
    StrayEmpty(root + [id]);
  }

  lemma StrayParent(root: Path, id: string)
    ensures JoinPath(root + [id], "../x") == root + ["x"]
  {
    var dir := root + [id];
    assert "../x" == ".." + "/" + "x";
    JoinTwo(dir, "..", "x");
    assert dir[..|dir| - 1] == root;
  }

  lemma StrayAbsolute(dir: Path)
    ensures JoinPath(dir, "/etc/passwd") == ["etc", "passwd"]
  {
    assert "/etc/passwd" == "/" + ("etc" + "/" + "passwd");
    JoinRooted(dir, "etc", "passwd");
  }

  lemma StrayNested(dir: Path)
    ensures JoinPath(dir, "sub/f.bin") == dir + ["sub", "f.bin"]
  {
    assert "sub/f.bin" == "sub" + "/" + "f.bin";
    JoinTwo(dir, "sub", "f.bin");
    assert dir + ["sub"] + ["f.bin"] == dir + ["sub", "f.bin"];
  }

  lemma JoinTwo(dir: Path, a: string, b: string)
    requires a != "" && '/' !in a && '/' !in b
    ensures JoinPath(dir, a + "/" + b) == Follow(Follow(dir, a), b)
  {
    SlashedTwo(a, b);
    ComponentsOf([a, b]);
    WalkTwo(dir, a, b);
    assert (a + "/" + b)[0] == a[0] && a[0] in a;
  }

  lemma JoinRooted(dir: Path, a: string, b: string)
    requires '/' !in a && '/' !in b
    ensures JoinPath(dir, "/" + (a + "/" + b)) == Follow(Follow([], a), b)
  {
    SlashedTwo(a, b);
    assert ["", a, b][1..] == [a, b];
    assert "" + "/" + (a + "/" + b) == "/" + (a + "/" + b);
    ComponentsOf(["", a, b]);
    WalkThree([], "", a, b);
  }

  lemma StrayEmpty(dir: Path)
    ensures JoinPath(dir, "") == dir
  {
    assert [""][1..] == [];
    assert Walk(dir, [""]) == Walk(Follow(dir, ""), []);
  }

  lemma SlashedTwo(a: string, b: string)
    ensures Slashed([a, b]) == a + "/" + b
  {
    assert [a, b][1..] == [b];
  }

  lemma WalkTwo(at: Path, a: string, b: string)
    ensures Walk(at, [a, b]) == Follow(Follow(at, a), b)
  {
    assert [a, b][1..] == [b] && [b][1..] == [];
    assert Walk(Follow(at, a), [b]) == Walk(Follow(Follow(at, a), b), []);
  }

  lemma WalkThree(at: Path, a: string, b: string, c: string)
    ensures Walk(at, [a, b, c]) == Follow(Follow(Follow(at, a), b), c)
  {
    assert [a, b, c][1..] == [b, c];
    WalkTwo(Follow(at, a), b, c);
  }

  /** The slash-separated text of some components. */
  function Slashed(cs: seq<string>): string
    requires cs != []
  {
    if |cs| == 1 then cs[0] else cs[0] + "/" + Slashed(cs[1..])
  }

  lemma {:induction false} ComponentsOf(cs: seq<string>)
    requires cs != [] && forall c :: c in cs ==> '/' !in c
    ensures Components(Slashed(cs)) == cs
  {
    assert cs[0] in cs;
    if |cs| == 1 {
      OneComponent(cs[0]);
    } else {
      ComponentsOf(cs[1..]);
      FirstComponent(cs[0], Slashed(cs[1..]));
    }
  }

  lemma {:induction false} FirstComponent(a: string, rest: string)
    requires '/' !in a
    ensures Components(a + "/" + rest) == [a] + Components(rest)
  {
    var s := a + "/" + rest;
    if a == "" {
      assert s[1..] == rest;
    } else {
      assert s[1..] == a[1..] + "/" + rest;
      FirstComponent(a[1..], rest);
      assert [a[0]] + a[1..] == a;
    }
  }

  /** Why the name matters: content verified and written for one digest under "../x" is what a request
      for another digest under that name finds, without any hash being compared. */
  lemma ForeignHit(w: World, fs: map<Path, Bytes>, root: Path, id: string, other: string)
    requires IsHex(id) && IsHex(other) && id != other
    requires var path := Resolve(root, Place(id, "../x")); path in fs && w.hash(fs[path]) == id
    ensures var path := Resolve(root, Place(other, "../x")); path in fs && w.hash(fs[path]) != other
  {
    StrayNames(root, id);
    StrayNames(root, other);
  }

  /** A manifest may name the cache's own bookkeeping: an id that is no digest leads to a stored manifest. */
  lemma StrayId(root: Path, name: string)
    requires PlainComponent(name)
    ensures Resolve(root, Place("manifests", name)) == root + ["manifests"] + [name]
    ensures Reserved(root, Resolve(root, Place("manifests", name)))
  {
    JoinPlain(root, "manifests");
    JoinPlain(root + ["manifests"], name);
  }

  // ---------------------------------------------------------------- chunk files

  /** `root / "chunks" / h[:2] / h[2:4] / h`. */
  function ChunkPath(root: Path, h: string): Path {
    var a, b := Min(2, |h|), Min(4, |h|);
    JoinPath(JoinPath(JoinPath(root + ["chunks"], h[..a]), h[a..b]), h)
  }

  /** A chunk named by a digest is kept below the chunk directory, each digest in its own file. */
  lemma ChunkPathStays(root: Path, h: string)
    requires IsHex(h)
    ensures var path := ChunkPath(root, h);
            |root| + 1 < |path| && path[..|root| + 1] == root + ["chunks"] && path[|path| - 1] == h
  {
    hide JoinPath, PlainComponent, FinalName, IsHex;
    var a, b := Min(2, |h|), Min(4, |h|);
    var base := root + ["chunks"];
    HexSlices(h, a, b);
    HexIsPlain(h);
    HexIsPlain(h[..a]);
    JoinPlain(base, h[..a]);
    if a < b {
      HexIsPlain(h[a..b]);
      JoinPlain(base + [h[..a]], h[a..b]);
      JoinPlain(base + [h[..a]] + [h[a..b]], h);
    } else {
      assert h[a..b] == "";
      StrayEmpty(base + [h[..a]]);
      JoinPlain(base + [h[..a]], h);
    }
  }

  lemma HexSlices(h: string, a: nat, b: nat)
    requires IsHex(h) && a == Min(2, |h|) && b == Min(4, |h|)
    ensures 0 < a <= b && IsHex(h[..a]) && (a < b ==> IsHex(h[a..b]))
  {
  }

  /** A chunk name that is no digest can lead anywhere. */
  lemma StrayChunk(root: Path)
    ensures ChunkPath(root, "/e") == ["e"]
  {
    var base := root + ["chunks"];
    assert "/e" == "" + "/" + "e";
    SlashedTwo("", "e");
    ComponentsOf(["", "e"]);
    WalkTwo([], "", "e");
    assert JoinPath(base, "/e") == ["e"];
    StrayEmpty(["e"]);
    assert "/e"[2..2] == "" && "/e"[..2] == "/e";
    assert JoinPath(["e"], "/e") == ["e"];
  }
}
