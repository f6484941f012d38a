/** What an expanded selection contains and in which order, in terms of the directory tree alone. */
module FolderContents {
  import opened Offers
  import opened FolderExpansion

  // ----- the order of names -----

  /** The first `k` characters agree, and then `a` ends or has the smaller character. */
  predicate SmallerAt(a: string, b: string, k: nat) {
    k <= |a| && k < |b| && a[..k] == b[..k] && (k < |a| ==> a[k] < b[k])
  }

  lemma FirstAgrees(a: string, b: string, k: nat)
    requires SmallerAt(a, b, k)
    ensures k > 0 ==> a != [] && a[0] == b[0]
  {
    if k > 0 {
      assert a[..k][0] == b[..k][0];
    }
  }

  /** The comparison is the lexicographic order, a prefix before what it begins. */
  lemma {:induction false} LessIsLexicographic(a: string, b: string)
    ensures Less(a, b) <==> exists k: nat :: SmallerAt(a, b, k)
  {
    if b == [] {
    } else if a == [] || a[0] != b[0] {
      if Less(a, b) {
        assert SmallerAt(a, b, 0);
      }
      forall k: nat | SmallerAt(a, b, k)
        ensures Less(a, b)
      {
        FirstAgrees(a, b, k);
      }
    } else {
      LessIsLexicographic(a[1..], b[1..]);
      if Less(a, b) {
        var k: nat :| SmallerAt(a[1..], b[1..], k);
        assert a[..k + 1] == [a[0]] + a[1..][..k] && b[..k + 1] == [b[0]] + b[1..][..k];
        assert SmallerAt(a, b, k + 1);
      }
      if k: nat :| SmallerAt(a, b, k) {
        assert a[1..][..k - 1] == a[..k][1..] && b[1..][..k - 1] == b[..k][1..];
        assert SmallerAt(a[1..], b[1..], k - 1);
      }
    }
  }

  // ----- one level -----

  /** The files of a level are its plain files and its links to files, named below the level's two paths. */
  lemma {:induction false} LevelFiles(n: Node, entries: seq<Entry>, f: Node)
    ensures f in FilesOf(n, entries) <==>
            && f.readable && f.children == []
            && exists e :: e in entries && (e.FileEntry? || e.LinkToFile?) &&
                           f.abs == n.abs + "/" + e.name && f.rel == n.rel + "/" + e.name
  {
    if entries == [] {
    } else {
      var m := |entries| - 1;
      LevelFiles(n, entries[..m], f);
      assert entries == entries[..m] + [entries[m]];
    }
  }

  /** The subdirectories of a level. */
  lemma {:induction false} LevelDirs(n: Node, entries: seq<Entry>, d: Node)
    ensures d in DirsOf(n, entries) <==>
            exists e :: e in entries && e.DirEntry? && d.abs == n.abs + "/" + e.name && d.rel == n.rel + "/" + e.name &&
                        d.readable == e.readable && d.children == e.children
  {
    if entries == [] {
    } else {
      var m, last := |entries| - 1, entries[|entries| - 1];
      LevelDirs(n, entries[..m], d);
      assert forall e :: e in entries <==> e in entries[..m] || e == last;
    }
  }

  // ----- the whole tree -----

  /** The names lead from the entries through readable directories to a file or a link to one. */
  ghost predicate Leads(entries: seq<Entry>, names: seq<string>)
    decreases |names|
  {
    && names != []
    && exists e :: e in entries && e.name == names[0] &&
                   if |names| == 1 then e.FileEntry? || e.LinkToFile?
                   else e.DirEntry? && e.readable && Leads(e.children, names[1..])
  }

  function Below(path: string, names: seq<string>): string
    decreases |names|
  {
    if names == [] then path else Below(path + "/" + names[0], names[1..])
  }

  /** A path of names leads to the file, which is called by these names below both of the folder's paths. */
  ghost predicate Contains(n: Node, f: SelectedFile) {
    n.readable &&
    exists names: seq<string> :: Leads(n.children, names) && f == SelectedFile(Below(n.abs, names), Below(n.rel, names))
  }

  lemma SelectedMembers(files: seq<Node>, f: SelectedFile)
    ensures f in Selected(files) <==> exists x :: x in files && f == SelectedFile(x.abs, x.rel)
  {
    if f in Selected(files) {
      var i :| 0 <= i < |files| && Selected(files)[i] == f;
      assert files[i] in files;
    }
    if x :| x in files && f == SelectedFile(x.abs, x.rel) {
      var i :| 0 <= i < |files| && files[i] == x;
      assert Selected(files)[i] == f;
    }
  }

  lemma SortMembers(ns: seq<Node>, x: Node)
    ensures x in Sort(ns) <==> x in ns
  {
    SortSorts(ns);
    assert x in multiset(Sort(ns)) <==> x in multiset(ns);
  }

  lemma {:induction false} PreorderMembers(ns: seq<Node>, f: SelectedFile)
    ensures f in Preorder(ns) <==> exists n :: n in ns && Contains(n, f)
    decreases Weight(ns)
  {
    if ns == [] {
    } else {
      var n := ns[0];
      var dirs := Sort(DirsOf(n, n.children));
      SortedDirsWeigh(n);
      PreorderMembers(ns[1..], f);
      PreorderMembers(dirs, f);
      assert ns == [n] + ns[1..];
      NodeMembers(n, f);
    }
  }

  lemma NodeMembers(n: Node, f: SelectedFile)
    ensures Contains(n, f) <==>
            && n.readable
            && (f in Selected(Sort(FilesOf(n, n.children))) ||
                exists d :: d in Sort(DirsOf(n, n.children)) && Contains(d, f))
  {
    if n.readable {
      if names: seq<string> :|
        Leads(n.children, names) && f == SelectedFile(Below(n.abs, names), Below(n.rel, names)) {
        ContainedIsBelow(n, f, names);
      }
      if f in Selected(Sort(FilesOf(n, n.children))) {
        FileIsContained(n, f);
      }
      if d :| d in Sort(DirsOf(n, n.children)) && Contains(d, f) {
        DirIsContained(n, d, f);
      }
    }
  }

  lemma ContainedIsBelow(n: Node, f: SelectedFile, names: seq<string>)
    requires n.readable && Leads(n.children, names)
    requires f == SelectedFile(Below(n.abs, names), Below(n.rel, names))
    ensures f in Selected(Sort(FilesOf(n, n.children))) ||
            exists d :: d in Sort(DirsOf(n, n.children)) && Contains(d, f)
  {
    var e :| e in n.children && e.name == names[0] &&
             if |names| == 1 then e.FileEntry? || e.LinkToFile?
             else e.DirEntry? && e.readable && Leads(e.children, names[1..]);
    if |names| == 1 {
      var x := Node(n.abs + "/" + e.name, n.rel + "/" + e.name, true, []);
      LevelFiles(n, n.children, x);
      SortMembers(FilesOf(n, n.children), x);
      assert names[1..] == [];
      SelectedMembers(Sort(FilesOf(n, n.children)), f);
    } else {
      var d := Node(n.abs + "/" + e.name, n.rel + "/" + e.name, e.readable, e.children);
      LevelDirs(n, n.children, d);
      SortMembers(DirsOf(n, n.children), d);
      assert Contains(d, f);
    }
  }

  lemma FileIsContained(n: Node, f: SelectedFile)
    requires n.readable && f in Selected(Sort(FilesOf(n, n.children)))
    ensures Contains(n, f)
  {
    SelectedMembers(Sort(FilesOf(n, n.children)), f);
    var x :| x in Sort(FilesOf(n, n.children)) && f == SelectedFile(x.abs, x.rel);
    SortMembers(FilesOf(n, n.children), x);
    LevelFiles(n, n.children, x);
    var e :| e in n.children && (e.FileEntry? || e.LinkToFile?) &&
             x.abs == n.abs + "/" + e.name && x.rel == n.rel + "/" + e.name;
    var names := [e.name];
    assert names[1..] == [];
    assert Leads(n.children, names) && f == SelectedFile(Below(n.abs, names), Below(n.rel, names));
  }

  lemma DirIsContained(n: Node, d: Node, f: SelectedFile)
    requires n.readable && d in Sort(DirsOf(n, n.children)) && Contains(d, f)
    ensures Contains(n, f)
  {
    SortMembers(DirsOf(n, n.children), d);
    LevelDirs(n, n.children, d);
    var e :| e in n.children && e.DirEntry? && d.abs == n.abs + "/" + e.name && d.rel == n.rel + "/" + e.name &&
             d.readable == e.readable && d.children == e.children;
    var names: seq<string> :|
      Leads(d.children, names) && f == SelectedFile(Below(d.abs, names), Below(d.rel, names));
    var all := [e.name] + names;
    assert all[1..] == names;
    assert Leads(n.children, all) && f == SelectedFile(Below(n.abs, all), Below(n.rel, all));
  }

  lemma InOneNode(n: Node, f: SelectedFile)
    ensures f in Preorder([n]) <==> Contains(n, f)
  {
    PreorderMembers([n], f);
    assert forall x :: x in [n] <==> x == n;
  }

  /** Selections are expanded one after another. */
  lemma SelectionsInOrder(a: seq<Selection>, s: Selection)
    ensures Expansion(a + [s]) == Expansion(a) + Expansion([s])
  {
    assert (a + [s])[..|a|] == a && [s][..0] == [];
  }

  /** A selected folder yields exactly the files that a path through readable directories leads to. */
  lemma FolderYieldsExactly(path: string, name: string, readable: bool, children: seq<Entry>, f: SelectedFile)
    ensures f in Expansion([Folder(path, name, readable, children)]) <==>
            Contains(Node(path, name, readable, children), f)
  {
    var n := Node(path, name, readable, children);
    var folder := Folder(path, name, readable, children);
    assert Expansion([folder]) == Preorder([n]) by {
      assert [folder][..0] == [];
    }
    InOneNode(n, f);
  }

  // ----- order -----

  /** A folder: its files in ascending order of relative path, then its subfolders in that order, each the same way. */
  lemma FilesBeforeSubfolders(n: Node) returns (files: seq<Node>, dirs: seq<Node>)
    requires n.readable
    ensures Preorder([n]) == Selected(files) + Preorder(dirs)
    ensures multiset(files) == multiset(FilesOf(n, n.children)) && multiset(dirs) == multiset(DirsOf(n, n.children))
    ensures forall i, j :: 0 <= i < j < |files| ==> !Less(files[j].rel, files[i].rel)
    ensures forall i, j :: 0 <= i < j < |dirs| ==> !Less(dirs[j].rel, dirs[i].rel)
  {
    files, dirs := Sort(FilesOf(n, n.children)), Sort(DirsOf(n, n.children));
    SortSorts(FilesOf(n, n.children));
    SortSorts(DirsOf(n, n.children));
    assert [n][1..] == [];
  }

  /** A selected file stands for itself under its own name, and an unreadable path for nothing. */
  lemma SingleSelections(path: string, name: string)
    ensures Expansion([OneFile(path, name)]) == [SelectedFile(path, name)]
    ensures Expansion([Selection.Unreadable]) == []
  {
    assert [OneFile(path, name)][..0] == [] && [Selection.Unreadable][..0] == [];
  }
}
