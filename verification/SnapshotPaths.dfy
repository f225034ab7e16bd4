// Where a snapshot is kept: filepath.Join(DataDir, "snapshots", name), which cleans the path
// (cmd/snapshot.go:46). The name is any text that is not empty; different names can be one
// directory, and a name can lead out of the snapshots directory altogether.
module SnapshotPaths {
  import opened Names

  // A cleaned absolute path, by its elements.
  type Path = seq<string>

  // The elements between the slashes.
  function Split(text: string): (elements: seq<string>)
    ensures elements != []
  {
    if text == "" then [""]
    else if text[0] == '/' then [""] + Split(text[1..])
    else
      var rest := Split(text[1..]);
      [[text[0]] + rest[0]] + rest[1..]
  }

  // filepath.Clean of what follows a cleaned path: empty and "." elements vanish, ".." goes up,
  // and at the root stays there.
  function Walk(at: Path, elements: seq<string>): Path
    decreases |elements|
  {
    if elements == [] then at
    else Walk(Enter(at, elements[0]), elements[1..])
  }

  function Enter(at: Path, element: string): Path {
    if element == "" || element == "." then at
    else if element == ".." then if at == [] then [] else at[..|at| - 1]
    else at + [element]
  }

  function Home(dataDir: Path): Path { dataDir + ["snapshots"] }

  function DirOf(dataDir: Path, name: string): Path { Walk(Home(dataDir), Split(name)) }

  // The chroot of a VM, for the base name of the firecracker binary.
  function ChrootOf(dataDir: Path, binary: string, i: nat): Path {
    dataDir + ["vms", binary, VmId(i), "root"]
  }

  // ----- Names that are what they look like

  predicate PlainElement(name: string) {
    name != "" && name != "." && name != ".." && '/' !in name
  }

  lemma {:induction false} SplitOfPlain(name: string)
    requires '/' !in name
    ensures Split(name) == [name]
  {
    if name != "" {
      SplitOfPlain(name[1..]);
      assert [name[0]] + name[1..] == name;
    }
  }

  // A single path element is kept in the directory of that name, so such names never share one.
  lemma PlainNamesApart(dataDir: Path, name: string, name': string)
    requires PlainElement(name) && PlainElement(name')
    ensures DirOf(dataDir, name) == Home(dataDir) + [name]
    ensures DirOf(dataDir, name) == DirOf(dataDir, name') ==> name == name'
  {
    DirOfPlain(dataDir, name);
    DirOfPlain(dataDir, name');
    var n := |Home(dataDir)|;
    assert DirOf(dataDir, name)[n] == name && DirOf(dataDir, name')[n] == name';
  }

  lemma DirOfPlain(dataDir: Path, name: string)
    requires PlainElement(name)
    ensures DirOf(dataDir, name) == Home(dataDir) + [name]
  {
    SplitOfPlain(name);
    WalkOne(Home(dataDir), name);
  }

  lemma WalkOne(at: Path, element: string)
    ensures Walk(at, [element]) == Enter(at, element)
  {
    assert [element][1..] == [];
  }

  // ----- Names that are not

  lemma {:induction false} SplitAtSlash(element: string, rest: string)
    requires '/' !in element
    ensures Split(element + "/" + rest) == [element] + Split(rest)
  {
    var text := element + "/" + rest;
    if element == "" {
      assert text[1..] == rest;
    } else {
      assert text[1..] == element[1..] + "/" + rest;
      SplitAtSlash(element[1..], rest);
      assert [element[0]] + element[1..] == element;
    }
  }

  lemma WalkOn(at: Path, element: string, rest: seq<string>)
    ensures Walk(at, [element] + rest) == Walk(Enter(at, element), rest)
  {
    assert ([element] + rest)[1..] == rest;
  }

  // Four names, each free while the others are taken, and one directory.
  lemma NamesOfOneDirectory(dataDir: Path, a: string, x: string)
    requires PlainElement(a) && PlainElement(x)
    ensures DirOf(dataDir, a + "/") == DirOf(dataDir, a) && a + "/" != a
    ensures DirOf(dataDir, "./" + a) == DirOf(dataDir, a) && "./" + a != a
    ensures DirOf(dataDir, x + "/../" + a) == DirOf(dataDir, a) && x + "/../" + a != a
  {
    var home := Home(dataDir);
    SplitOfPlain(a);
    assert a + "/" + "" == a + "/" && "." + "/" + a == "./" + a;
    SplitAtSlash(a, "");
    WalkOn(home, a, [""]);
    SplitAtSlash(".", a);
    WalkOn(home, ".", [a]);
    assert x + "/" + (".." + "/" + a) == x + "/../" + a;
    SplitAtSlash(x, ".." + "/" + a);
    SplitAtSlash("..", a);
    WalkOn(home, x, [".."] + [a]);
    WalkOn(home + [x], "..", [a]);
    assert (home + [x])[..|home|] == home;
    assert |a + "/"| == |a| + 1 && |"./" + a| == |a| + 2 && |x + "/../" + a| > |a|;
  }

  // And one that is the chroot of a VM: the copies of such a snapshot are written over its disk.
  lemma NameOfAChroot(dataDir: Path, binary: string, i: nat)
    requires PlainElement(binary)
    ensures DirOf(dataDir, "../vms/" + binary + "/" + VmId(i) + "/root") == ChrootOf(dataDir, binary, i)
  {
    hide Split, Walk, PlainElement, VmId;
    var home, id := Home(dataDir), VmId(i);
    VmIdIsPlain(i);
    LiteralsArePlain();
    var below := id + "/" + "root";
    var vms := binary + "/" + below;
    assert "../vms/" + binary + "/" + id + "/root" == ".." + "/" + ("vms" + "/" + vms);
    WalkUp(home, "vms" + "/" + vms);
    assert home[..|home| - 1] == dataDir;
    WalkDown(dataDir, "vms", vms);
    WalkDown(dataDir + ["vms"], binary, below);
    WalkDown(dataDir + ["vms"] + [binary], id, "root");
    SplitOfPlain("root");
    WalkOne(dataDir + ["vms"] + [binary] + [id], "root");
    assert dataDir + ["vms"] + [binary] + [id] + ["root"] == ChrootOf(dataDir, binary, i);
  }

  lemma WalkDown(at: Path, element: string, rest: string)
    requires PlainElement(element)
    ensures Walk(at, Split(element + "/" + rest)) == Walk(at + [element], Split(rest))
  {
    SplitAtSlash(element, rest);
    WalkOn(at, element, Split(rest));
  }

  lemma WalkUp(at: Path, rest: string)
    requires at != []
    ensures Walk(at, Split(".." + "/" + rest)) == Walk(at[..|at| - 1], Split(rest))
  {
    SplitAtSlash("..", rest);
    WalkOn(at, "..", Split(rest));
  }

  lemma LiteralsArePlain()
    ensures PlainElement("vms") && PlainElement("root") && '/' !in "root"
    ensures Enter([], "root") == ["root"]
  {
  }

  lemma VmIdIsPlain(i: nat)
    ensures PlainElement(VmId(i)) && '/' !in VmId(i)
  {
    assert VmId(i)[0] == 'v';
  }

  // ----- Names that stay where snapshots belong

  const FILE_NAMES := {"snapshot.bin", "mem.bin", "rootfs.ext4"}

  // The directory is below the snapshots directory, and not inside one of another's files.
  predicate Contained(dataDir: Path, name: string) {
    var home, dir := Home(dataDir), DirOf(dataDir, name);
    home < dir && forall k :: |home| < k < |dir| ==> dir[k] !in FILE_NAMES
  }

  lemma PlainIsContained(dataDir: Path, name: string)
    requires PlainElement(name)
    ensures Contained(dataDir, name)
  {
    PlainNamesApart(dataDir, name, name);
  }

  // Different directories of such names have no file in common, and none is where another has a
  // file; and none is part of a VM's directory, or has one in it.
  lemma ContainedDirsApart(dataDir: Path, name: string, name': string, f: string, f': string, binary: string, i: nat)
    requires Contained(dataDir, name) && Contained(dataDir, name') && DirOf(dataDir, name) != DirOf(dataDir, name')
    requires f in FILE_NAMES && f' in FILE_NAMES
    ensures DirOf(dataDir, name) + [f] != DirOf(dataDir, name') + [f']
    ensures !(DirOf(dataDir, name) + [f] <= DirOf(dataDir, name'))
    ensures !(DirOf(dataDir, name) <= ChrootOf(dataDir, binary, i)) && !(ChrootOf(dataDir, binary, i) <= DirOf(dataDir, name))
  {
    var d, d', n := DirOf(dataDir, name), DirOf(dataDir, name'), |dataDir|;
    assert (d + [f])[..|d|] == d && (d' + [f'])[..|d'|] == d';
    assert (d + [f])[|d|] == f;
    assert d[n] == Home(dataDir)[n] == "snapshots" && ChrootOf(dataDir, binary, i)[n] == "vms";
    assert "snapshots"[0] != "vms"[0];
  }
}
