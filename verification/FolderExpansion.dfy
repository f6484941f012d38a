/** Expanding a selection of files and folders: the explicit-stack loop against the recursive preorder. */
module FolderExpansion {
  import opened Wrappers
  import opened Offers

  /** A directory entry; `Other` is everything skipped: links to directories, dangling links, devices. */
  datatype Entry =
    | FileEntry(name: string)
    | LinkToFile(name: string)
    | DirEntry(name: string, readable: bool, children: seq<Entry>)
    | Other(name: string)

  datatype Selection =
    | Unreadable
    | OneFile(path: string, name: string)
    | Folder(path: string, name: string, readable: bool, children: seq<Entry>)

  /** A file or directory with its absolute and relative path; a file has no children. */
  datatype Node = Node(abs: string, rel: string, readable: bool, children: seq<Entry>)

  function Join(a: string, b: string): string {
    a + "/" + b
  }

  // ----- one level -----

  /** The files of a level, in the order the file system lists them. */
  function FilesOf(n: Node, entries: seq<Entry>): seq<Node> {
    if entries == [] then []
    else
      var e := entries[|entries| - 1];
      FilesOf(n, entries[..|entries| - 1])
      + if e.FileEntry? || e.LinkToFile? then [Node(Join(n.abs, e.name), Join(n.rel, e.name), true, [])] else []
  }

  function DirsOf(n: Node, entries: seq<Entry>): seq<Node> {
    if entries == [] then []
    else
      var e := entries[|entries| - 1];
      DirsOf(n, entries[..|entries| - 1])
      + if e.DirEntry? then [Node(Join(n.abs, e.name), Join(n.rel, e.name), e.readable, e.children)] else []
  }

  // ----- sorting by relative path -----

  predicate Less(a: string, b: string) {
    b != [] && (a == [] || a[0] < b[0] || (a[0] == b[0] && Less(a[1..], b[1..])))
  }

  function Insert(n: Node, sorted: seq<Node>): seq<Node> {
    if sorted == [] then [n]
    else if Less(sorted[0].rel, n.rel) then [sorted[0]] + Insert(n, sorted[1..])
    else [n] + sorted
  }

  /** A stable sort. */
  function Sort(ns: seq<Node>): seq<Node> {
    if ns == [] then [] else Insert(ns[0], Sort(ns[1..]))
  }

  lemma {:induction false} LessIsTotal(a: string, b: string)
    ensures Less(a, b) || Less(b, a) || a == b
    ensures !(Less(a, b) && Less(b, a))
  {
    if a == [] || b == [] || a[0] != b[0] {
    } else {
      LessIsTotal(a[1..], b[1..]);
      assert a == [a[0]] + a[1..] && b == [b[0]] + b[1..];
    }
  }

  lemma {:induction false} LessIsTransitive(a: string, b: string, c: string)
    requires !Less(b, a) && !Less(c, b)
    ensures !Less(c, a)
  {
    if a == [] || b == [] || c == [] {
    } else {
      if a[0] == b[0] && b[0] == c[0] {
        LessIsTransitive(a[1..], b[1..], c[1..]);
      }
    }
  }

  ghost predicate Sorted(ns: seq<Node>) {
    forall i, j :: 0 <= i < j < |ns| ==> !Less(ns[j].rel, ns[i].rel)
  }

  lemma {:induction false} InsertSorted(n: Node, s: seq<Node>)
    requires Sorted(s)
    ensures Sorted(Insert(n, s)) && forall x :: x in Insert(n, s) <==> x in s || x == n
  {
    if s == [] {
    } else {
      assert s == [s[0]] + s[1..];
      LessIsTotal(s[0].rel, n.rel);
      if Less(s[0].rel, n.rel) {
        InsertSorted(n, s[1..]);
        var r := Insert(n, s[1..]);
        forall i | 0 <= i < |r|
          ensures !Less(r[i].rel, s[0].rel)
        {
          assert r[i] in s[1..] || r[i] == n;
        }
      } else {
        forall i | 0 <= i < |s|
          ensures !Less(s[i].rel, n.rel)
        {
          if i > 0 {
            LessIsTransitive(n.rel, s[0].rel, s[i].rel);
          }
        }
      }
    }
  }

  lemma {:induction false} InsertRows(n: Node, s: seq<Node>)
    ensures multiset(Insert(n, s)) == multiset(s) + multiset{n}
    ensures Weight(Insert(n, s)) == Weight(s) + 1 + TreeSize(n.children)
  {
    if s != [] && Less(s[0].rel, n.rel) {
      assert s == [s[0]] + s[1..];
      InsertRows(n, s[1..]);
      assert ([s[0]] + Insert(n, s[1..]))[1..] == Insert(n, s[1..]);
    } else {
      assert ([n] + s)[1..] == s;
    }
  }

  /** Sort returns the same nodes in order of relative path. */
  lemma {:induction false} SortSorts(ns: seq<Node>)
    ensures Sorted(Sort(ns)) && multiset(Sort(ns)) == multiset(ns) && Weight(Sort(ns)) == Weight(ns)
  {
    if ns == [] {
    } else {
      assert ns == [ns[0]] + ns[1..];
      SortSorts(ns[1..]);
      InsertSorted(ns[0], Sort(ns[1..]));
      InsertRows(ns[0], Sort(ns[1..]));
    }
  }

  // ----- sizes, for termination -----

  /** The number of entries below. */
  function TreeSize(es: seq<Entry>): nat
    decreases es, 0
  {
    if es == [] then 0
    else TreeSize(es[..|es| - 1]) + EntrySize(es[|es| - 1])
  }

  function EntrySize(e: Entry): nat
    decreases e, 1
  {
    1 + if e.DirEntry? then TreeSize(e.children) else 0
  }

  function Weight(ns: seq<Node>): nat {
    if ns == [] then 0 else 1 + TreeSize(ns[0].children) + Weight(ns[1..])
  }

  lemma {:induction false} WeightConcat(a: seq<Node>, b: seq<Node>)
    ensures Weight(a + b) == Weight(a) + Weight(b)
  {
    if a == [] {
      assert a + b == b;
    } else {
      assert (a + b)[1..] == a[1..] + b;
      WeightConcat(a[1..], b);
    }
  }

  lemma {:induction false} DirsWeigh(n: Node, entries: seq<Entry>)
    ensures Weight(DirsOf(n, entries)) <= TreeSize(entries)
  {
    if entries == [] {
    } else {
      var e := entries[|entries| - 1];
      DirsWeigh(n, entries[..|entries| - 1]);
      var last := if e.DirEntry? then [Node(Join(n.abs, e.name), Join(n.rel, e.name), e.readable, e.children)] else [];
      WeightConcat(DirsOf(n, entries[..|entries| - 1]), last);
    }
  }

  lemma SortedDirsWeigh(n: Node)
    ensures Weight(Sort(DirsOf(n, n.children))) <= TreeSize(n.children)
  {
    DirsWeigh(n, n.children);
    SortSorts(DirsOf(n, n.children));
  }

  // ----- the recursive preorder -----

  function Selected(files: seq<Node>): (s: seq<SelectedFile>)
    ensures |s| == |files| && forall i :: 0 <= i < |files| ==> s[i] == SelectedFile(files[i].abs, files[i].rel)
  {
    seq(|files|, i requires 0 <= i < |files| => SelectedFile(files[i].abs, files[i].rel))
  }

  /**
   Each directory: its files sorted, then its subdirectories sorted, each in the same way; unreadable ones give
   nothing.
   */
  function Preorder(ns: seq<Node>): seq<SelectedFile>
    decreases Weight(ns)
  {
    if ns == [] then []
    else
      var n := ns[0];
      SortedDirsWeigh(n);
      (if n.readable then Selected(Sort(FilesOf(n, n.children))) + Preorder(Sort(DirsOf(n, n.children))) else [])
      + Preorder(ns[1..])
  }

  function FromSelection(s: Selection): seq<SelectedFile> {
    match s
    case Unreadable => []
    case OneFile(path, name) => [SelectedFile(path, name)]
    case Folder(path, name, readable, children) => Preorder([Node(path, name, readable, children)])
  }

  /** What the whole selection stands for. */
  function Expansion(selections: seq<Selection>): seq<SelectedFile> {
    if selections == [] then []
    else Expansion(selections[..|selections| - 1]) + FromSelection(selections[|selections| - 1])
  }

  lemma {:induction false} PreorderConcat(a: seq<Node>, b: seq<Node>)
    ensures Preorder(a + b) == Preorder(a) + Preorder(b)
    decreases |a|
  {
    if a == [] {
      assert a + b == b;
    } else {
      assert (a + b)[1..] == a[1..] + b;
      PreorderConcat(a[1..], b);
    }
  }

  // ----- the loop -----

  predicate Unambiguous(s: seq<SelectedFile>) {
    forall i, j :: 0 <= i < j < |s| ==> s[i].relative != s[j].relative
  }

  datatype Duplicate = Duplicate(relative: string, first: string, second: string)

  ghost predicate Names(d: Duplicate, s: seq<SelectedFile>) {
    exists i, j :: 0 <= i < j < |s| && s[i] == SelectedFile(d.first, d.relative) &&
        s[j] == SelectedFile(d.second, d.relative)
  }

  /** `seen` maps each relative path of `out` to its absolute path. */
  ghost predicate SeenIs(seen: map<string, string>, out: seq<SelectedFile>) {
    && Unambiguous(out)
    && (forall r :: r in seen ==> SelectedFile(seen[r], r) in out)
    && (forall i :: 0 <= i < |out| ==> out[i].relative in seen)
  }

  lemma Reassociate(a: seq<SelectedFile>, b: seq<SelectedFile>, c: seq<SelectedFile>, d: seq<SelectedFile>)
    ensures a + (b + c) + d == (a + b) + c + d && a + (b + c) + d == a + b + (c + d)
  {
  }

  /** push_selected; `rest` is what would follow. */
  method PushSelected(out: seq<SelectedFile>, seen: map<string, string>, abs: string, rel: string,
                      ghost rest: seq<SelectedFile>)
    returns (r: Result<(seq<SelectedFile>, map<string, string>), Duplicate>)
    requires SeenIs(seen, out)
    ensures r.Ok? ==> r.value.0 == out + [SelectedFile(abs, rel)] && SeenIs(r.value.1, r.value.0)
    ensures r.Err? ==> Names(r.error, out + [SelectedFile(abs, rel)] + rest)
  {
    if rel in seen {
      var i :| 0 <= i < |out| && out[i] == SelectedFile(seen[rel], rel);
      ghost var all := out + [SelectedFile(abs, rel)] + rest;
      assert all[i] == out[i] && all[|out|] == SelectedFile(abs, rel);
      return Err(Duplicate(rel, seen[rel], abs));
    }
    return Ok((out + [SelectedFile(abs, rel)], seen[rel := abs]));
  }

  lemma SelectedStep(files: seq<Node>, k: nat)
    requires k < |files|
    ensures Selected(files[..k + 1]) == Selected(files[..k]) + [SelectedFile(files[k].abs, files[k].rel)]
    ensures Selected(files) == Selected(files[..k + 1]) + Selected(files[k + 1..])
  {
  }

  method PushAll(out: seq<SelectedFile>, seen: map<string, string>, files: seq<Node>, ghost rest: seq<SelectedFile>)
    returns (r: Result<(seq<SelectedFile>, map<string, string>), Duplicate>)
    requires SeenIs(seen, out)
    ensures r.Ok? ==> r.value.0 == out + Selected(files) && SeenIs(r.value.1, r.value.0)
    ensures r.Err? ==> Names(r.error, out + Selected(files) + rest)
  {
    var out', seen' := out, seen;
    for k := 0 to |files|
      invariant out' == out + Selected(files[..k]) && SeenIs(seen', out')
    {
      ghost var f, after := [SelectedFile(files[k].abs, files[k].rel)], Selected(files[k + 1..]);
      var p := PushSelected(out', seen', files[k].abs, files[k].rel, after + rest);
      SelectedStep(files, k);
      match p {
        case Err(d) =>
          PlaceInWhole(out, Selected(files[..k]), f, after, rest);
          return Err(d);
        case Ok(v) =>
          PlaceInWhole(out, Selected(files[..k]), f, after, rest);
          out', seen' := v.0, v.1;
      }
    }
    assert files[..|files|] == files;
    return Ok((out', seen'));
  }

  lemma PlaceInWhole(a: seq<SelectedFile>, b: seq<SelectedFile>, f: seq<SelectedFile>, c: seq<SelectedFile>,
                     d: seq<SelectedFile>)
    ensures (a + b) + f + (c + d) == a + ((b + f) + c) + d
    ensures (a + b) + f == a + (b + f)
  {
    Reassociate(a, b, f, []);
    Reassociate(a, b + f, c, d);
  }

  function Reverse(s: seq<Node>): (r: seq<Node>)
    ensures |r| == |s| && forall i :: 0 <= i < |s| ==> r[i] == s[|s| - 1 - i]
  {
    seq(|s|, i requires 0 <= i < |s| => s[|s| - 1 - i])
  }

  lemma {:induction false} WeightReverse(s: seq<Node>)
    ensures Weight(Reverse(s)) == Weight(s)
  {
    if s == [] {
    } else {
      WeightReverse(s[1..]);
      assert Reverse(s) == Reverse(s[1..]) + [s[0]];
      WeightConcat(Reverse(s[1..]), [s[0]]);
      assert [s[0]][1..] == [];
    }
  }

  /** What popping the last directory of the stack yields before the directories below it. */
  function OfTop(stack: seq<Node>): seq<SelectedFile>
    requires stack != []
  {
    var n := stack[|stack| - 1];
    if n.readable then Selected(Sort(FilesOf(n, n.children))) else []
  }

  /** The stack after the last directory was popped and its sorted subdirectories were pushed last-first. */
  function AfterTop(stack: seq<Node>): seq<Node>
    requires stack != []
  {
    var n := stack[|stack| - 1];
    stack[..|stack| - 1] + if n.readable then Reverse(Sort(DirsOf(n, n.children))) else []
  }

  lemma Assoc(a: seq<SelectedFile>, b: seq<SelectedFile>, c: seq<SelectedFile>)
    ensures (a + b) + c == a + (b + c)
  {
  }

  /** One round of the loop keeps what is output followed by what the stack stands for. */
  lemma RoundKeepsPreorder(stack: seq<Node>)
    requires stack != []
    ensures Preorder(Reverse(stack)) == OfTop(stack) + Preorder(Reverse(AfterTop(stack)))
  {
    var n := stack[|stack| - 1];
    var below := stack[..|stack| - 1];
    PopPreorder(stack);
    if n.readable {
      var dirs := Sort(DirsOf(n, n.children));
      PushReversed(below, dirs);
      Assoc(OfTop(stack), Preorder(dirs), Preorder(Reverse(below)));
    } else {
      assert AfterTop(stack) == below && OfTop(stack) == [];
    }
  }

  lemma RoundShrinks(stack: seq<Node>)
    requires stack != []
    ensures Weight(AfterTop(stack)) < Weight(stack)
  {
    var n := stack[|stack| - 1];
    PopWeight(stack);
    if n.readable {
      var dirs := Sort(DirsOf(n, n.children));
      SortedDirsWeigh(n);
      WeightReverse(dirs);
      WeightConcat(stack[..|stack| - 1], Reverse(dirs));
    } else {
      assert AfterTop(stack) == stack[..|stack| - 1];
    }
  }

  /** The pass over one directory's entries. */
  method ReadLevel(n: Node) returns (files: seq<Node>, dirs: seq<Node>)
    ensures files == FilesOf(n, n.children) && dirs == DirsOf(n, n.children)
  {
    files, dirs := [], [];
    for k := 0 to |n.children|
      invariant files == FilesOf(n, n.children[..k]) && dirs == DirsOf(n, n.children[..k])
    {
      var e := n.children[k];
      assert n.children[..k + 1][..k] == n.children[..k];
      if e.DirEntry? {
        dirs := dirs + [Node(Join(n.abs, e.name), Join(n.rel, e.name), e.readable, e.children)];
      } else if e.FileEntry? || e.LinkToFile? {
        files := files + [Node(Join(n.abs, e.name), Join(n.rel, e.name), true, [])];
      }
    }
    assert n.children[..|n.children|] == n.children;
  }

  /** Pushes the subdirectories last-first. */
  method PushDirs(below: seq<Node>, dirs: seq<Node>) returns (stack: seq<Node>)
    ensures stack == below + Reverse(dirs)
  {
    stack := below;
    for k := |dirs| downto 0
      invariant stack == below + Reverse(dirs)[..|dirs| - k]
    {
      stack := stack + [dirs[k]];
    }
  }

  /** One round: pops a directory, outputs its files and pushes its subdirectories. */
  method Visit(stack: seq<Node>, out: seq<SelectedFile>, seen: map<string, string>, ghost rest: seq<SelectedFile>)
    returns (r: Result<(seq<SelectedFile>, map<string, string>), Duplicate>, stack': seq<Node>)
    requires stack != [] && SeenIs(seen, out)
    ensures r.Ok? ==> r.value.0 == out + OfTop(stack) && SeenIs(r.value.1, r.value.0) && stack' == AfterTop(stack)
    ensures r.Err? ==> Names(r.error, out + OfTop(stack) + rest)
  {
    var n := stack[|stack| - 1];
    stack' := stack[..|stack| - 1];
    if !n.readable {
      return Ok((out, seen)), stack';
    }
    var files, dirs := ReadLevel(n);
    r := PushAll(out, seen, Sort(files), rest);
    stack' := PushDirs(stack', Sort(dirs));
  }

  /** One folder: pops directories off an explicit stack until none is left. */
  method WalkFolder(root: Node, out: seq<SelectedFile>, seen: map<string, string>, ghost rest: seq<SelectedFile>)
    returns (r: Result<(seq<SelectedFile>, map<string, string>), Duplicate>)
    requires SeenIs(seen, out)
    ensures r.Ok? ==> r.value.0 == out + Preorder([root]) && SeenIs(r.value.1, r.value.0)
    ensures r.Err? ==> Names(r.error, out + Preorder([root]) + rest)
  {
    var out', seen' := out, seen;
    var stack := [root];
    ghost var done: seq<SelectedFile> := [];
    ghost var whole := Preorder([root]);
    assert Reverse(stack) == [root];
    while stack != []
      invariant SeenIs(seen', out')
      invariant out' == out + done && done + Preorder(Reverse(stack)) == whole
      decreases Weight(stack)
    {
      ghost var top, later := OfTop(stack), Preorder(Reverse(AfterTop(stack)));
      RoundKeepsPreorder(stack);
      RoundShrinks(stack);
      Place(out, done, top, later, rest, whole);
      var p, stack' := Visit(stack, out', seen', later + rest);
      match p {
        case Err(d) => return Err(d);
        case Ok(v) => out', seen' := v.0, v.1;
      }
      stack := stack';
      done := done + top;
    }
    assert Reverse(stack) == [];
    return Ok((out', seen'));
  }

  lemma Place(out: seq<SelectedFile>, done: seq<SelectedFile>, top: seq<SelectedFile>, later: seq<SelectedFile>,
              rest: seq<SelectedFile>, whole: seq<SelectedFile>)
    requires whole == done + (top + later)
    ensures (out + done) + top + (later + rest) == out + whole + rest
    ensures (out + done) + top == out + (done + top) && done + top + later == whole
  {
    PlaceInWhole(out, done, top, later, rest);
    Reassociate([], done, top, later);
  }

  lemma PopWeight(stack: seq<Node>)
    requires stack != []
    ensures Weight(stack) == Weight(stack[..|stack| - 1]) + 1 + TreeSize(stack[|stack| - 1].children)
  {
    var n := |stack| - 1;
    assert stack == stack[..n] + [stack[n]];
    WeightConcat(stack[..n], [stack[n]]);
    assert [stack[n]][1..] == [];
  }

  lemma PopPreorder(stack: seq<Node>)
    requires stack != []
    ensures var n := stack[|stack| - 1];
            Preorder(Reverse(stack)) ==
            (if n.readable then Selected(Sort(FilesOf(n, n.children))) + Preorder(Sort(DirsOf(n, n.children))) else [])
            + Preorder(Reverse(stack[..|stack| - 1]))
  {
    assert Reverse(stack)[1..] == Reverse(stack[..|stack| - 1]);
  }

  /** Pushing the sorted subdirectories last-first makes them come off in order, before what was below. */
  lemma PushReversed(below: seq<Node>, dirs: seq<Node>)
    ensures Preorder(Reverse(below + Reverse(dirs))) == Preorder(dirs) + Preorder(Reverse(below))
  {
    assert Reverse(below + Reverse(dirs)) == dirs + Reverse(below);
    PreorderConcat(dirs, Reverse(below));
  }

  lemma {:induction false} ExpansionGrows(selections: seq<Selection>, k: nat)
    requires k <= |selections|
    ensures Expansion(selections[..k]) <= Expansion(selections)
    decreases |selections|
  {
    if k == |selections| {
      assert selections[..k] == selections;
    } else {
      var m := |selections| - 1;
      ExpansionGrows(selections[..m], k);
      assert selections[..m][..k] == selections[..k];
    }
  }

  lemma ExpansionStep(selections: seq<Selection>, k: nat)
    requires k < |selections|
    ensures Expansion(selections[..k + 1]) == Expansion(selections[..k]) + FromSelection(selections[k])
  {
    assert selections[..k + 1][..k] == selections[..k];
  }

  lemma Completed(prefix: seq<SelectedFile>, whole: seq<SelectedFile>) returns (rest: seq<SelectedFile>)
    requires prefix <= whole
    ensures prefix + rest == whole
  {
    rest := whole[|prefix|..];
  }

  lemma SplitExpansion(selections: seq<Selection>, k: nat) returns (rest: seq<SelectedFile>)
    requires k < |selections|
    ensures Expansion(selections[..k + 1]) == Expansion(selections[..k]) + FromSelection(selections[k])
    ensures Expansion(selections[..k]) + FromSelection(selections[k]) + rest == Expansion(selections)
  {
    ExpansionStep(selections, k);
    ExpansionGrows(selections, k + 1);
    rest := Completed(Expansion(selections[..k + 1]), Expansion(selections));
  }

  lemma NamedIsAmbiguous(d: Duplicate, s: seq<SelectedFile>)
    requires Names(d, s)
    ensures !Unambiguous(s)
  {
    var i, j :| 0 <= i < j < |s| && s[i] == SelectedFile(d.first, d.relative) &&
        s[j] == SelectedFile(d.second, d.relative);
    assert s[i].relative == s[j].relative;
  }

  /** One selection: a file under its own name, a folder under its own name as root, an unreadable path not at all. */
  method AddSelection(s: Selection, out: seq<SelectedFile>, seen: map<string, string>, ghost rest: seq<SelectedFile>)
    returns (r: Result<(seq<SelectedFile>, map<string, string>), Duplicate>)
    requires SeenIs(seen, out)
    ensures r.Ok? ==> r.value.0 == out + FromSelection(s) && SeenIs(r.value.1, r.value.0)
    ensures r.Err? ==> Names(r.error, out + FromSelection(s) + rest)
  {
    match s {
      case Unreadable => r := Ok((out, seen));
      case OneFile(path, name) => r := PushSelected(out, seen, path, name, rest);
      case Folder(path, name, readable, children) =>
        r := WalkFolder(Node(path, name, readable, children), out, seen, rest);
    }
  }

  method ExpandAll(selections: seq<Selection>) returns (r: Result<seq<SelectedFile>, Duplicate>)
    ensures r.Ok? ==> r.value == Expansion(selections) && Unambiguous(r.value)
    ensures r.Err? ==> Names(r.error, Expansion(selections))
  {
    var out: seq<SelectedFile> := [];
    var seen: map<string, string> := map[];
    for k := 0 to |selections|
      invariant out == Expansion(selections[..k])
      invariant SeenIs(seen, out)
    {
      ghost var rest := SplitExpansion(selections, k);
      var p := AddSelection(selections[k], out, seen, rest);
      match p {
        case Err(d) => return Err(d);
        case Ok(v) => out, seen := v.0, v.1;
      }
    }
    assert selections[..|selections|] == selections;
    return Ok(out);
  }

  /** expand_selection yields the recursive expansion, and an error exactly when that has a duplicate relative path. */
  method ExpandSelection(selections: seq<Selection>) returns (r: Result<seq<SelectedFile>, Duplicate>)
    ensures r.Ok? <==> Unambiguous(Expansion(selections))
    ensures r.Ok? ==> r.value == Expansion(selections)
    ensures r.Err? ==> Names(r.error, Expansion(selections))
  {
    r := ExpandAll(selections);
    if r.Err? {
      NamedIsAmbiguous(r.error, Expansion(selections));
    }
  }
}
