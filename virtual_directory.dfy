/**
 * The in-memory tree that a dry run fills in instead of moving files
 * (src/virtual_directory.rs): a list of file names and a map from directory
 * names to subtrees, an insertion by path segments, a membership test, and the
 * box-drawing listing printed at the end of a dry run.
 */
module VirtualDir {
  import Seqs

  datatype VirtualDirectory = VirtualDirectory(files: seq<string>, directories: map<string, VirtualDirectory>)

  /** `VirtualDirectory::default()`. */
  const Empty: VirtualDirectory := VirtualDirectory([], map[])

  /** `add_path`: the last segment goes into the files of the directory the others lead to, created as needed. */
  function AddPath(t: VirtualDirectory, parts: seq<string>): VirtualDirectory
    decreases |parts|
  {
    if |parts| == 0 then t
    else if |parts| == 1 then t.(files := t.files + [parts[0]])
    else
      var child := if parts[0] in t.directories then t.directories[parts[0]] else Empty;
      t.(directories := t.directories[parts[0] := AddPath(child, parts[1..])])
  }

  /** `contains_file`: every segment but the last names a subdirectory, and the last is one of its files. */
  predicate ContainsFile(t: VirtualDirectory, path: seq<string>)
    decreases |path|
  {
    if |path| == 0 then false
    else if |path| == 1 then path[0] in t.files
    else if path[0] in t.directories then ContainsFile(t.directories[path[0]], path[1..])
    else false
  }

  /** How many times `x` occurs in `s`. */
  function Occurrences(s: seq<string>, x: string): nat {
    if |s| == 0 then 0 else (if s[0] == x then 1 else 0) + Occurrences(s[1..], x)
  }

  /** How many copies of the file at `path` the tree holds (insertion keeps duplicates). */
  function Multiplicity(t: VirtualDirectory, path: seq<string>): nat
    decreases |path|
  {
    if |path| == 0 then 0
    else if |path| == 1 then Occurrences(t.files, path[0])
    else if path[0] in t.directories then Multiplicity(t.directories[path[0]], path[1..])
    else 0
  }

  // ---------------------------------------------------------------------------
  // Insertion and membership

  lemma {:induction false} OccurrencesAppend(s: seq<string>, y: string, x: string)
    ensures Occurrences(s + [y], x) == Occurrences(s, x) + (if y == x then 1 else 0)
    decreases |s|
  {
    if |s| > 0 {
      assert (s + [y])[1..] == s[1..] + [y];
      OccurrencesAppend(s[1..], y, x);
    } else {
      assert s + [y] == [y];
    }
  }

  lemma {:induction false} OccurrencesPositive(s: seq<string>, x: string)
    ensures Occurrences(s, x) > 0 <==> x in s
    decreases |s|
  {
    if |s| > 0 {
      OccurrencesPositive(s[1..], x);
      assert s == [s[0]] + s[1..];
    }
  }

  lemma {:induction false} EmptyHoldsNothing(path: seq<string>)
    ensures Multiplicity(Empty, path) == 0
  {
  }

  /** A file is contained exactly when the tree holds at least one copy of it. */
  lemma {:induction false} ContainsIffMultiplicity(t: VirtualDirectory, path: seq<string>)
    ensures ContainsFile(t, path) <==> Multiplicity(t, path) > 0
    decreases |path|
  {
    if |path| == 1 {
      OccurrencesPositive(t.files, path[0]);
    } else if |path| > 1 && path[0] in t.directories {
      ContainsIffMultiplicity(t.directories[path[0]], path[1..]);
    }
  }

  /**
   * Inserting a non-empty path adds exactly one copy of that file and nothing
   * else: every other path keeps its multiplicity.
   */
  lemma {:induction false} AddPathMultiplicity(t: VirtualDirectory, p: seq<string>, q: seq<string>)
    requires |p| > 0
    ensures Multiplicity(AddPath(t, p), q) == Multiplicity(t, q) + (if q == p then 1 else 0)
    decreases |p|
  {
    var r := AddPath(t, p);
    if |q| == 0 {
    } else if |p| == 1 {
      if |q| == 1 {
        OccurrencesAppend(t.files, p[0], q[0]);
        assert q == p <==> q[0] == p[0];
      }
    } else {
      var child := if p[0] in t.directories then t.directories[p[0]] else Empty;
      if |q| == 1 {
      } else if q[0] == p[0] {
        AddPathMultiplicity(child, p[1..], q[1..]);
        assert q == p <==> q[1..] == p[1..] by {
          if q[1..] == p[1..] { assert q == [q[0]] + q[1..] && p == [p[0]] + p[1..]; }
        }
        if p[0] !in t.directories {
          EmptyHoldsNothing(q[1..]);
        }
      } else {
        assert q != p;
      }
    }
  }

  /** After `add_path(p)` with `p` non-empty, `contains_file(p)` holds. */
  lemma AddPathThenContains(t: VirtualDirectory, p: seq<string>)
    requires |p| > 0
    ensures ContainsFile(AddPath(t, p), p)
  {
    AddPathMultiplicity(t, p, p);
    ContainsIffMultiplicity(AddPath(t, p), p);
  }

  /** Insertion only adds: a path is contained afterwards iff it was before or it is the inserted one. */
  lemma AddPathContainsExactly(t: VirtualDirectory, p: seq<string>, q: seq<string>)
    requires |p| > 0
    ensures ContainsFile(AddPath(t, p), q) <==> ContainsFile(t, q) || q == p
  {
    AddPathMultiplicity(t, p, q);
    ContainsIffMultiplicity(AddPath(t, p), q);
    ContainsIffMultiplicity(t, q);
  }

  /**
   * The shape of one insertion: an empty path changes nothing; a single segment is
   * appended to this level's files; a longer path reuses or creates the first
   * segment's subtree, inserts the rest there, and leaves files and siblings alone.
   */
  lemma AddPathTouchesOneBranch(t: VirtualDirectory, p: seq<string>)
    ensures |p| == 0 ==> AddPath(t, p) == t
    ensures |p| == 1 ==> AddPath(t, p).files == t.files + [p[0]] && AddPath(t, p).directories == t.directories
    ensures |p| > 1 ==>
      var r := AddPath(t, p);
      && r.files == t.files
      && r.directories.Keys == t.directories.Keys + {p[0]}
      && r.directories[p[0]] == AddPath(if p[0] in t.directories then t.directories[p[0]] else Empty, p[1..])
      && (forall k :: k in t.directories && k != p[0] ==> r.directories[k] == t.directories[k])
  {
  }

  // ---------------------------------------------------------------------------
  // Name order: Rust's `String` order, lexicographic by character

  predicate LexLeq(a: string, b: string)
    decreases |a|
  {
    |a| == 0 || (|b| > 0 && (a[0] < b[0] || (a[0] == b[0] && LexLeq(a[1..], b[1..]))))
  }

  lemma {:induction false} LexTotal(a: string, b: string)
    ensures LexLeq(a, b) || LexLeq(b, a)
    decreases |a|
  {
    if |a| > 0 && |b| > 0 && a[0] == b[0] {
      LexTotal(a[1..], b[1..]);
    }
  }

  lemma {:induction false} LexAntisymmetric(a: string, b: string)
    requires LexLeq(a, b) && LexLeq(b, a)
    ensures a == b
    decreases |a|
  {
    if |a| > 0 {
      LexAntisymmetric(a[1..], b[1..]);
      assert a == [a[0]] + a[1..] && b == [b[0]] + b[1..];
    }
  }

  lemma {:induction false} LexTransitive(a: string, b: string, c: string)
    requires LexLeq(a, b) && LexLeq(b, c)
    ensures LexLeq(a, c)
    decreases |a|
  {
    if |a| > 0 && a[0] == b[0] && b[0] == c[0] {
      LexTransitive(a[1..], b[1..], c[1..]);
    }
  }

  predicate IsLeast(m: string, s: set<string>) {
    m in s && forall x :: x in s ==> LexLeq(m, x)
  }

  lemma {:induction false} LeastExists(s: set<string>)
    requires s != {}
    ensures exists m :: IsLeast(m, s)
    decreases s
  {
    var x :| x in s;
    if s != {x} {
      var rest := s - {x};
      LeastExists(rest);
      var m :| IsLeast(m, rest);
      LexTotal(x, m);
      if LexLeq(x, m) {
        forall y | y in s ensures LexLeq(x, y) {
          if y != x { LexTransitive(x, m, y); } else { LexTotal(x, x); }
        }
        assert IsLeast(x, s);
      } else {
        assert IsLeast(m, s);
      }
    } else {
      LexTotal(x, x);
      assert IsLeast(x, s);
    }
  }

  ghost function Least(s: set<string>): (m: string)
    requires s != {}
    ensures IsLeast(m, s)
  {
    LeastExists(s);
    var m :| IsLeast(m, s); m
  }

  lemma LeastUnique(m: string, s: set<string>)
    requires IsLeast(m, s)
    ensures m == Least(s)
  {
    LexAntisymmetric(m, Least(s));
  }

  /** The directory names in the order the listing prints them. */
  ghost function SortedNames(s: set<string>): seq<string>
    decreases s
  {
    if s == {} then [] else var m := Least(s); [m] + SortedNames(s - {m})
  }

  /** The listing order holds every name once, in strictly increasing order. */
  lemma {:induction false} SortedNamesSpec(s: set<string>)
    ensures |SortedNames(s)| == |s|
    ensures forall x :: x in SortedNames(s) <==> x in s
    ensures forall i, j :: 0 <= i < j < |SortedNames(s)| ==>
      LexLeq(SortedNames(s)[i], SortedNames(s)[j]) && SortedNames(s)[i] != SortedNames(s)[j]
    decreases s
  {
    if s != {} {
      var m := Least(s);
      var rest := SortedNames(s - {m});
      SortedNamesSpec(s - {m});
      var r := [m] + rest;
      assert SortedNames(s) == r;
      forall i, j | 0 <= i < j < |r| ensures LexLeq(r[i], r[j]) && r[i] != r[j] {
        if i == 0 {
          assert r[j] == rest[j - 1];
          assert r[j] in s - {m};
        } else {
          assert r[i] == rest[i - 1] && r[j] == rest[j - 1];
        }
      }
    }
  }

  /** Every listed name is one of the set's names. */
  lemma {:induction false} SortedNamesMembers(s: set<string>)
    ensures forall i :: 0 <= i < |SortedNames(s)| ==> SortedNames(s)[i] in s
    decreases s
  {
    if s != {} {
      var m := Least(s);
      SortedNamesMembers(s - {m});
      assert SortedNames(s) == [m] + SortedNames(s - {m});
    }
  }

  /** Rust collects the directory entries and sorts them by name; here, selection of the least name. */
  method SortNames(s: set<string>) returns (names: seq<string>)
    ensures names == SortedNames(s)
  {
    names := [];
    var rest := s;
    while rest != {}
      invariant names + SortedNames(rest) == SortedNames(s)
      decreases rest
    {
      LeastExists(rest);
      var m :| m in rest && forall x :: x in rest ==> LexLeq(m, x);
      LeastUnique(m, rest);
      names := names + [m];
      rest := rest - {m};
    }
  }

  // ---------------------------------------------------------------------------
  // The listing (`print` / `print_tree`)

  const Tee: string := "├── "
  const Elbow: string := "└── "
  const Bar: string := "│   "
  const Blank: string := "    "

  function Connector(isLast: bool): string {
    if isLast then Elbow else Tee
  }

  function ChildPrefix(prefix: string, isLast: bool): string {
    if isLast then prefix + Blank else prefix + Bar
  }

  /** The lines `print(prefix)` writes: directories by name (each followed by its own listing), then files. */
  ghost function Render(t: VirtualDirectory, prefix: string): seq<string>
    decreases t, 1
  {
    var names := SortedNames(t.directories.Keys);
    SortedNamesMembers(t.directories.Keys);
    var total := |names| + |t.files|;
    RenderDirs(t, names, 0, total, prefix) + RenderFiles(t.files, |names|, total, prefix)
  }

  /** The directory entries `names[k..]`, the `k`-th of `total` entries first. */
  ghost function RenderDirs(t: VirtualDirectory, names: seq<string>, k: nat, total: nat, prefix: string): seq<string>
    requires forall i :: 0 <= i < |names| ==> names[i] in t.directories
    requires k <= |names|
    decreases t, 0, |names| - k
  {
    if k == |names| then []
    else
      var isLast := k + 1 == total;
      [prefix + Connector(isLast) + names[k]]
        + Render(t.directories[names[k]], ChildPrefix(prefix, isLast))
        + RenderDirs(t, names, k + 1, total, prefix)
  }

  /** The file entries, the first of them being entry number `index` of `total`. */
  ghost function RenderFiles(files: seq<string>, index: nat, total: nat, prefix: string): seq<string>
    decreases |files|
  {
    if |files| == 0 then []
    else [prefix + Connector(index + 1 == total) + files[0]] + RenderFiles(files[1..], index + 1, total, prefix)
  }

  /** `print`: the loop over sorted directories, then the loop over files, with a shared entry counter. */
  method Print(t: VirtualDirectory, prefix: string) returns (lines: seq<string>)
    ensures lines == Render(t, prefix)
    decreases t
  {
    var names := SortNames(t.directories.Keys);
    SortedNamesMembers(t.directories.Keys);
    var total := |names| + |t.files|;
    var currentIndex := 0;
    lines := [];
    while currentIndex < |names|
      invariant 0 <= currentIndex <= |names|
      invariant lines + RenderDirs(t, names, currentIndex, total, prefix) == RenderDirs(t, names, 0, total, prefix)
    {
      var dir := names[currentIndex];
      var isCurrentLast := currentIndex + 1 == total;
      var sub := Print(t.directories[dir], ChildPrefix(prefix, isCurrentLast));
      var head := prefix + Connector(isCurrentLast) + dir;
      assert RenderDirs(t, names, currentIndex, total, prefix)
        == [head] + sub + RenderDirs(t, names, currentIndex + 1, total, prefix);
      Seqs.Regroup(lines, [head], sub, RenderDirs(t, names, currentIndex + 1, total, prefix));
      lines := lines + [head] + sub;
      currentIndex := currentIndex + 1;
    }
    assert lines == RenderDirs(t, names, 0, total, prefix);
    var fileLines := PrintFiles(t.files, currentIndex, total, prefix);
    lines := lines + fileLines;
  }

  /** The file loop of `print`: entry `index + i` of `total` is the `i`-th file. */
  method PrintFiles(files: seq<string>, index: nat, total: nat, prefix: string) returns (lines: seq<string>)
    ensures lines == RenderFiles(files, index, total, prefix)
  {
    lines := [];
    var i := 0;
    while i < |files|
      invariant 0 <= i <= |files|
      invariant lines + RenderFiles(files[i..], index + i, total, prefix) == RenderFiles(files, index, total, prefix)
    {
      var isCurrentLast := index + i + 1 == total;
      assert files[i..][1..] == files[i + 1..];
      lines := lines + [prefix + Connector(isCurrentLast) + files[i]];
      i := i + 1;
    }
    assert files[i..] == [];
  }

  /** `print_tree`: the listing with an empty prefix. */
  method PrintTree(t: VirtualDirectory) returns (lines: seq<string>)
    ensures lines == Render(t, "")
  {
    lines := Print(t, "");
  }

  // ---------------------------------------------------------------------------
  // Properties of the listing

  predicate StartsWith(line: string, head: string) {
    |head| <= |line| && line[..|head|] == head
  }

  /** A line of this level's entries: the prefix followed by one of the two connectors. */
  predicate IsEntryLine(line: string, prefix: string) {
    StartsWith(line, prefix + Tee) || StartsWith(line, prefix + Elbow)
  }

  /** The names on this level's entry lines, in order. */
  function EntryNames(lines: seq<string>, prefix: string): seq<string> {
    if |lines| == 0 then []
    else
      (if IsEntryLine(lines[0], prefix) then [lines[0][|prefix| + 4..]] else [])
        + EntryNames(lines[1..], prefix)
  }

  /** For each entry line of this level, in order, whether it carries the closing connector. */
  function EntryMarks(lines: seq<string>, prefix: string): seq<bool> {
    if |lines| == 0 then []
    else
      (if IsEntryLine(lines[0], prefix) then [StartsWith(lines[0], prefix + Elbow)] else [])
        + EntryMarks(lines[1..], prefix)
  }

  /** The marks of `count` consecutive entries starting at entry `from` of `total`: only entry `total - 1` closes. */
  function Closing(from: nat, count: nat, total: nat): (marks: seq<bool>)
    ensures |marks| == count
    decreases count
  {
    if count == 0 then [] else [from + 1 == total] + Closing(from + 1, count - 1, total)
  }

  lemma {:induction false} ClosingAt(from: nat, count: nat, total: nat, i: nat)
    requires i < count
    ensures Closing(from, count, total)[i] <==> from + i + 1 == total
    decreases count
  {
    if i > 0 {
      ClosingAt(from + 1, count - 1, total, i - 1);
    }
  }

  lemma {:induction false} ClosingConcat(from: nat, a: nat, b: nat, total: nat)
    ensures Closing(from, a, total) + Closing(from + a, b, total) == Closing(from, a + b, total)
    decreases a
  {
    if a > 0 {
      ClosingConcat(from + 1, a - 1, b, total);
      assert [from + 1 == total] + Closing(from + 1, a - 1, total) + Closing(from + 1 + (a - 1), b, total)
        == [from + 1 == total] + (Closing(from + 1, a - 1, total) + Closing(from + 1 + (a - 1), b, total));
    } else {
      assert Closing(from, a, total) == [];
    }
  }

  lemma {:induction false} EntryNamesConcat(a: seq<string>, b: seq<string>, prefix: string)
    ensures EntryNames(a + b, prefix) == EntryNames(a, prefix) + EntryNames(b, prefix)
    ensures EntryMarks(a + b, prefix) == EntryMarks(a, prefix) + EntryMarks(b, prefix)
    decreases |a|
  {
    if |a| > 0 {
      assert (a + b)[1..] == a[1..] + b;
      EntryNamesConcat(a[1..], b, prefix);
    } else {
      assert a + b == b;
    }
  }

  /** Every line of a listing starts with the prefix it was given. */
  lemma {:induction false} RenderStartsWithPrefix(t: VirtualDirectory, prefix: string)
    ensures forall i :: 0 <= i < |Render(t, prefix)| ==> StartsWith(Render(t, prefix)[i], prefix)
    decreases t, 1
  {
    var names := SortedNames(t.directories.Keys);
    SortedNamesMembers(t.directories.Keys);
    var total := |names| + |t.files|;
    RenderDirsStartWithPrefix(t, names, 0, total, prefix);
    RenderFilesStartWithPrefix(t.files, |names|, total, prefix);
  }

  lemma {:induction false} RenderDirsStartWithPrefix(t: VirtualDirectory, names: seq<string>, k: nat, total: nat, prefix: string)
    requires forall i :: 0 <= i < |names| ==> names[i] in t.directories
    requires k <= |names|
    ensures forall i :: 0 <= i < |RenderDirs(t, names, k, total, prefix)| ==>
      StartsWith(RenderDirs(t, names, k, total, prefix)[i], prefix)
    decreases t, 0, |names| - k
  {
    if k < |names| {
      var isLast := k + 1 == total;
      var head := prefix + Connector(isLast) + names[k];
      var child := ChildPrefix(prefix, isLast);
      var sub := Render(t.directories[names[k]], child);
      var rest := RenderDirs(t, names, k + 1, total, prefix);
      RenderStartsWithPrefix(t.directories[names[k]], child);
      RenderDirsStartWithPrefix(t, names, k + 1, total, prefix);
      var all := [head] + sub + rest;
      forall i | 0 <= i < |all| ensures StartsWith(all[i], prefix) {
        if i == 0 {
          assert head[..|prefix|] == prefix;
        } else if i < 1 + |sub| {
          assert all[i] == sub[i - 1];
          assert StartsWith(sub[i - 1], child);
          assert child[..|prefix|] == prefix;
          assert sub[i - 1][..|prefix|] == sub[i - 1][..|child|][..|prefix|];
        } else {
          assert all[i] == rest[i - 1 - |sub|];
        }
      }
    }
  }

  lemma {:induction false} RenderFilesStartWithPrefix(files: seq<string>, index: nat, total: nat, prefix: string)
    ensures forall i :: 0 <= i < |RenderFiles(files, index, total, prefix)| ==>
      StartsWith(RenderFiles(files, index, total, prefix)[i], prefix)
    decreases |files|
  {
    if |files| > 0 {
      var head := prefix + Connector(index + 1 == total) + files[0];
      assert head[..|prefix|] == prefix;
      RenderFilesStartWithPrefix(files[1..], index + 1, total, prefix);
    }
  }

  /** Lines indented under a child prefix are never entry lines of the parent level. */
  lemma {:induction false} ChildLinesAreNotEntries(lines: seq<string>, prefix: string, isLast: bool)
    requires forall i :: 0 <= i < |lines| ==> StartsWith(lines[i], ChildPrefix(prefix, isLast))
    ensures EntryNames(lines, prefix) == []
    ensures EntryMarks(lines, prefix) == []
    decreases |lines|
  {
    if |lines| > 0 {
      var line := lines[0];
      var child := ChildPrefix(prefix, isLast);
      assert line[|prefix|] == child[|prefix|];
      assert (prefix + Tee)[|prefix|] == '├';
      assert (prefix + Elbow)[|prefix|] == '└';
      assert child[|prefix|] == (if isLast then ' ' else '│');
      assert !StartsWith(line, prefix + Tee) && !StartsWith(line, prefix + Elbow);
      ChildLinesAreNotEntries(lines[1..], prefix, isLast);
    }
  }

  /** The line written for one entry: an entry line carrying that name, closing the level iff it is the last. */
  lemma EntryLine(prefix: string, isLast: bool, name: string)
    ensures IsEntryLine(prefix + Connector(isLast) + name, prefix)
    ensures (prefix + Connector(isLast) + name)[|prefix| + 4..] == name
    ensures StartsWith(prefix + Connector(isLast) + name, prefix + Elbow) <==> isLast
  {
    var line := prefix + Connector(isLast) + name;
    assert line[..|prefix + Connector(isLast)|] == prefix + Connector(isLast);
    if !isLast {
      assert line[|prefix|] == '├';
      assert (prefix + Elbow)[|prefix|] == '└';
    }
  }

  lemma {:induction false} RenderFilesEntries(files: seq<string>, index: nat, total: nat, prefix: string)
    ensures EntryNames(RenderFiles(files, index, total, prefix), prefix) == files
    ensures EntryMarks(RenderFiles(files, index, total, prefix), prefix) == Closing(index, |files|, total)
    decreases |files|
  {
    if |files| > 0 {
      var head := prefix + Connector(index + 1 == total) + files[0];
      EntryLine(prefix, index + 1 == total, files[0]);
      RenderFilesEntries(files[1..], index + 1, total, prefix);
      EntryNamesConcat([head], RenderFiles(files[1..], index + 1, total, prefix), prefix);
      assert [files[0]] + files[1..] == files;
    }
  }

  /** One directory entry of a level contributes its name and its closing mark, and nothing from its own listing. */
  lemma RenderDirsStep(t: VirtualDirectory, names: seq<string>, k: nat, total: nat, prefix: string)
    requires forall i :: 0 <= i < |names| ==> names[i] in t.directories
    requires k < |names|
    ensures EntryNames(RenderDirs(t, names, k, total, prefix), prefix)
      == [names[k]] + EntryNames(RenderDirs(t, names, k + 1, total, prefix), prefix)
    ensures EntryMarks(RenderDirs(t, names, k, total, prefix), prefix)
      == [k + 1 == total] + EntryMarks(RenderDirs(t, names, k + 1, total, prefix), prefix)
  {
    var isLast := k + 1 == total;
    var head := prefix + Connector(isLast) + names[k];
    var child := ChildPrefix(prefix, isLast);
    var sub := Render(t.directories[names[k]], child);
    var rest := RenderDirs(t, names, k + 1, total, prefix);
    EntryLine(prefix, isLast, names[k]);
    RenderStartsWithPrefix(t.directories[names[k]], child);
    ChildLinesAreNotEntries(sub, prefix, isLast);
    EntryNamesConcat([head], sub, prefix);
    EntryNamesConcat([head] + sub, rest, prefix);
    assert RenderDirs(t, names, k, total, prefix) == [head] + sub + rest;
  }

  lemma {:induction false} RenderDirsEntries(t: VirtualDirectory, names: seq<string>, k: nat, total: nat, prefix: string)
    requires forall i :: 0 <= i < |names| ==> names[i] in t.directories
    requires k <= |names|
    ensures EntryNames(RenderDirs(t, names, k, total, prefix), prefix) == names[k..]
    ensures EntryMarks(RenderDirs(t, names, k, total, prefix), prefix) == Closing(k, |names| - k, total)
    decreases |names| - k
  {
    if k < |names| {
      RenderDirsStep(t, names, k, total, prefix);
      RenderDirsEntries(t, names, k + 1, total, prefix);
      assert Closing(k, |names| - k, total) == [k + 1 == total] + Closing(k + 1, |names| - (k + 1), total);
      Seqs.SuffixShrinks(names, k);
    }
  }

  /** A level's listing is its directory loop's lines followed by its file loop's lines. */
  lemma RenderSplit(t: VirtualDirectory, prefix: string)
    ensures var names := SortedNames(t.directories.Keys);
      var total := |names| + |t.files|;
      && (forall i :: 0 <= i < |names| ==> names[i] in t.directories)
      && Render(t, prefix) == RenderDirs(t, names, 0, total, prefix) + RenderFiles(t.files, |names|, total, prefix)
  {
    SortedNamesMembers(t.directories.Keys);
  }

  /** The entry names and closing marks of one level, as computed from its two loops. */
  lemma RenderEntries(t: VirtualDirectory, prefix: string)
    ensures EntryNames(Render(t, prefix), prefix) == SortedNames(t.directories.Keys) + t.files
    ensures var total := |SortedNames(t.directories.Keys)| + |t.files|;
      EntryMarks(Render(t, prefix), prefix) == Closing(0, total, total)
  {
    var names := SortedNames(t.directories.Keys);
    var total := |names| + |t.files|;
    RenderSplit(t, prefix);
    var dirs := RenderDirs(t, names, 0, total, prefix);
    var files := RenderFiles(t.files, |names|, total, prefix);
    RenderDirsEntries(t, names, 0, total, prefix);
    RenderFilesEntries(t.files, |names|, total, prefix);
    EntryNamesConcat(dirs, files, prefix);
    assert names[0..] == names;
    ClosingConcat(0, |names|, |t.files|, total);
  }

  /** Of `total` entries numbered from 0, only the last closes. */
  lemma ClosingLast(total: nat)
    ensures forall i :: 0 <= i < total ==> (Closing(0, total, total)[i] <==> i == total - 1)
  {
    forall i | 0 <= i < total ensures Closing(0, total, total)[i] <==> i == total - 1 {
      ClosingAt(0, total, total, i);
    }
  }

  /**
   * The layout of one level: its entry lines name the subdirectories in sorted
   * order and then the files in insertion order, one line each, and the entry
   * line that carries the closing connector is exactly the last one.
   */
  lemma RenderLevel(t: VirtualDirectory, prefix: string)
    ensures EntryNames(Render(t, prefix), prefix) == SortedNames(t.directories.Keys) + t.files
    ensures var marks := EntryMarks(Render(t, prefix), prefix);
      && |marks| == |SortedNames(t.directories.Keys)| + |t.files|
      && forall i :: 0 <= i < |marks| ==> (marks[i] <==> i == |marks| - 1)
  {
    RenderEntries(t, prefix);
    ClosingLast(|SortedNames(t.directories.Keys)| + |t.files|);
  }

  /** The listing of the directories before `names[k]`: each entry line followed by that directory's own listing. */
  ghost function DirsBefore(t: VirtualDirectory, names: seq<string>, k: nat, total: nat, prefix: string): seq<string>
    requires forall i :: 0 <= i < |names| ==> names[i] in t.directories
    requires k <= |names|
    decreases k
  {
    if k == 0 then []
    else
      var isLast := k == total;
      DirsBefore(t, names, k - 1, total, prefix)
        + [prefix + Connector(isLast) + names[k - 1]]
        + Render(t.directories[names[k - 1]], ChildPrefix(prefix, isLast))
  }

  lemma {:induction false} RenderDirsSplit(t: VirtualDirectory, names: seq<string>, k: nat, total: nat, prefix: string)
    requires forall i :: 0 <= i < |names| ==> names[i] in t.directories
    requires k <= |names|
    ensures RenderDirs(t, names, 0, total, prefix) == DirsBefore(t, names, k, total, prefix) + RenderDirs(t, names, k, total, prefix)
    decreases k
  {
    if k > 0 {
      RenderDirsSplit(t, names, k - 1, total, prefix);
      var isLast := k == total;
      var head := prefix + Connector(isLast) + names[k - 1];
      var sub := Render(t.directories[names[k - 1]], ChildPrefix(prefix, isLast));
      assert RenderDirs(t, names, k - 1, total, prefix) == [head] + sub + RenderDirs(t, names, k, total, prefix);
      Seqs.Regroup(DirsBefore(t, names, k - 1, total, prefix), [head], sub, RenderDirs(t, names, k, total, prefix));
    }
  }

  /**
   * Where the `k`-th directory of a level sits in the listing: its entry line,
   * closing iff it is the level's last entry, is followed directly by its own
   * listing, every line of which is indented by the child prefix, four blanks
   * below the last entry and a bar otherwise.
   */
  lemma DirectoryBlock(t: VirtualDirectory, prefix: string, k: nat)
    requires k < |SortedNames(t.directories.Keys)|
    ensures var names := SortedNames(t.directories.Keys);
      var total := |names| + |t.files|;
      var isLast := k + 1 == total;
      && (forall i :: 0 <= i < |names| ==> names[i] in t.directories)
      && var sub := Render(t.directories[names[k]], ChildPrefix(prefix, isLast));
      && Render(t, prefix) == DirsBefore(t, names, k, total, prefix)
           + ([prefix + Connector(isLast) + names[k]] + sub + RenderDirs(t, names, k + 1, total, prefix))
           + RenderFiles(t.files, |names|, total, prefix)
      && (forall i :: 0 <= i < |sub| ==> StartsWith(sub[i], ChildPrefix(prefix, isLast)))
  {
    var names := SortedNames(t.directories.Keys);
    var total := |names| + |t.files|;
    RenderSplit(t, prefix);
    var isLast := k + 1 == total;
    var head := prefix + Connector(isLast) + names[k];
    var sub := Render(t.directories[names[k]], ChildPrefix(prefix, isLast));
    var before := DirsBefore(t, names, k, total, prefix);
    var rest := RenderDirs(t, names, k + 1, total, prefix);
    var files := RenderFiles(t.files, |names|, total, prefix);
    RenderDirsSplit(t, names, k, total, prefix);
    assert RenderDirs(t, names, k, total, prefix) == [head] + sub + rest;
    RenderStartsWithPrefix(t.directories[names[k]], ChildPrefix(prefix, isLast));
  }

  /** A level without subdirectories lists its files one per line, in insertion order, the last one closing. */
  lemma RenderFlat(t: VirtualDirectory, prefix: string)
    requires |t.directories| == 0
    ensures Render(t, prefix) == seq(|t.files|, i requires 0 <= i < |t.files| => prefix + Connector(i + 1 == |t.files|) + t.files[i])
  {
    SortedNamesMembers(t.directories.Keys);
    RenderFilesFlat(t.files, 0, |t.files|, prefix);
  }

  lemma {:induction false} RenderFilesFlat(files: seq<string>, index: nat, total: nat, prefix: string)
    ensures RenderFiles(files, index, total, prefix) ==
      seq(|files|, i requires 0 <= i < |files| => prefix + Connector(index + i + 1 == total) + files[i])
    decreases |files|
  {
    if |files| > 0 {
      RenderFilesFlat(files[1..], index + 1, total, prefix);
    }
  }
}
