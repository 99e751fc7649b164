/**
 * Paths as the program sees them through Rust's `std::path`.
 *
 * A path is the sequence of its components, as `Path::iter` yields them: an
 * absolute path starts with the root component "/", every other component is
 * a plain name (or ".."). `Render` is the path's text (`to_str`), `ComponentsOf`
 * parses a '/'-separated text back into components, `Join` is `Path::join`.
 */
module Paths {
  import opened Wrappers

  type Path = seq<string>

  /** The component that `Path::iter` yields for the leading '/' of an absolute path. */
  const RootDir: string := "/"

  predicate IsRooted(p: Path) {
    |p| > 0 && p[0] == RootDir
  }

  /** The two paths that have no parent: the empty path (the working directory) and "/". */
  predicate IsRoot(p: Path) {
    p == [] || p == [RootDir]
  }

  /** A component that `Path::iter` can yield after the root: no separator, not empty, not ".". */
  predicate Plain(c: string) {
    c != "" && c != "." && '/' !in c
  }

  /**
   * A component that enters a folder: plain and not "..". Paths here are
   * lexical, so this is what makes "below" mean below once ".." is resolved.
   */
  predicate Downward(c: string) {
    Plain(c) && c != ".."
  }

  /** Every component is plain, except a root component in first position. */
  predicate WellFormed(p: Path) {
    forall i :: 0 <= i < |p| ==> (i == 0 && p[i] == RootDir) || Plain(p[i])
  }

  /** `Path::parent`: everything but the last component; none for "" and "/". */
  function Parent(p: Path): Option<Path> {
    if IsRoot(p) then None else Some(p[..|p| - 1])
  }

  /** `Path::file_name`: the last component, unless the path ends in "/", "." or "..". */
  function FileName(p: Path): Option<string> {
    if |p| == 0 then None
    else
      var last := p[|p| - 1];
      if last == RootDir || last == "." || last == ".." then None else Some(last)
  }

  /** The file name as a sequence of at most one component (`if let Some(name) ... push(name)`). */
  function FileNameParts(p: Path): seq<string> {
    match FileName(p)
    case Some(name) => [name]
    case None => []
  }

  /** `Path::join`: joining an absolute path replaces the base. */
  function Join(base: Path, rel: Path): Path {
    if IsRooted(rel) then rel else base + rel
  }

  /** `str::split(sep)`: the pieces between separators; "" splits into [""]. */
  function Split(s: string, sep: char): (pieces: seq<string>)
    ensures |pieces| >= 1
    ensures forall i :: 0 <= i < |pieces| ==> sep !in pieces[i]
    decreases |s|
  {
    if |s| == 0 then [""]
    else
      var rest := Split(s[1..], sep);
      if s[0] == sep then [""] + rest
      else [[s[0]] + rest[0]] + rest[1..]
  }

  /** The pieces joined with `sep` between them. */
  function JoinWith(pieces: seq<string>, sep: char): string
    decreases |pieces|
  {
    if |pieces| == 0 then ""
    else if |pieces| == 1 then pieces[0]
    else pieces[0] + [sep] + JoinWith(pieces[1..], sep)
  }

  /** The pieces `Path::iter` keeps: empty pieces (repeated or trailing '/') and "." are dropped. */
  function NormalPieces(pieces: seq<string>): (r: seq<string>)
    requires forall i :: 0 <= i < |pieces| ==> '/' !in pieces[i]
    ensures forall i :: 0 <= i < |r| ==> Plain(r[i])
    ensures |r| <= |pieces|
  {
    if |pieces| == 0 then []
    else if pieces[0] == "" || pieces[0] == "." then NormalPieces(pieces[1..])
    else [pieces[0]] + NormalPieces(pieces[1..])
  }

  /**
   * The components of a '/'-separated path text, as `Path::new(s).iter()` yields
   * them, except that a leading "." (which `iter` keeps) is dropped like any other.
   */
  function ComponentsOf(s: string): (p: Path)
    ensures WellFormed(p)
    ensures IsRooted(p) <==> |s| > 0 && s[0] == '/'
  {
    var normal := NormalPieces(Split(s, '/'));
    if |s| > 0 && s[0] == '/' then [RootDir] + normal else normal
  }

  /** The text of a path (`Path::to_str`, which never fails for paths of Unicode names). */
  function Render(p: Path): string {
    if IsRooted(p) then "/" + JoinWith(p[1..], '/') else JoinWith(p, '/')
  }

  /** ASCII lower-casing of one character. */
  function LowerChar(c: char): char {
    if 'A' <= c <= 'Z' then (c as int + 32) as char else c
  }

  /** `to_lowercase`, on the ASCII letters. */
  function Lower(s: string): (r: string)
    ensures |r| == |s|
    ensures forall i :: 0 <= i < |r| ==> !('A' <= r[i] <= 'Z')
    ensures forall i :: 0 <= i < |s| ==>
      if 'A' <= s[i] <= 'Z' then r[i] as int == s[i] as int + 32 else r[i] == s[i]
  {
    seq(|s|, i requires 0 <= i < |s| => LowerChar(s[i]))
  }

  /** The position of the last occurrence of `c` in `s`. */
  function LastIndexOf(s: string, c: char): (r: Option<nat>)
    ensures r.Some? ==> r.value < |s| && s[r.value] == c && c !in s[r.value + 1..]
    ensures r.None? ==> c !in s
    decreases |s|
  {
    if |s| == 0 then None
    else if s[|s| - 1] == c then Some(|s| - 1)
    else LastIndexOf(s[..|s| - 1], c)
  }

  /**
   * `Path::extension`: the text after the last '.' of the file name; none when
   * there is no file name, no '.', or the only '.' leads the name (".bashrc").
   */
  function Extension(p: Path): (r: Option<string>)
    ensures r.Some? ==> FileName(p).Some? && '.' !in r.value
  {
    match FileName(p)
    case None => None
    case Some(name) =>
      match LastIndexOf(name, '.')
      case None => None
      case Some(i) => if i == 0 then None else Some(name[i + 1..])
  }

  /** `path.extension().unwrap_or_default().to_str().unwrap_or("").to_lowercase()`. */
  function LowerExtension(p: Path): string {
    Lower(Extension(p).GetOr(""))
  }

  /** A name with one dot, after a non-empty stem, has the text after the dot as its extension. */
  lemma SingleDotExtension(dir: Path, stem: string, ext: string)
    requires |stem| > 0 && '.' !in stem && '.' !in ext
    ensures Extension(dir + [stem + "." + ext]) == Some(ext)
  {
    var name := stem + "." + ext;
    assert name[|stem|] == '.';
    assert forall i :: 0 <= i < |name| && i != |stem| ==> name[i] != '.' by {
      forall i | 0 <= i < |name| && i != |stem| ensures name[i] != '.' {
        if i < |stem| { assert name[i] == stem[i]; } else { assert name[i] == ext[i - |stem| - 1]; }
      }
    }
    assert name[0] == stem[0] && name[0] != '.' && |name| >= 2;
    assert name != RootDir && name != "." && name != "..";
    assert FileName(dir + [name]) == Some(name);
    assert LastIndexOf(name, '.') == Some(|stem|);
    assert name[|stem| + 1..] == ext;
  }

  // ---------------------------------------------------------------------------
  // Splitting and joining texts

  lemma {:induction false} SplitWithoutSeparator(s: string, sep: char)
    requires sep !in s
    ensures Split(s, sep) == [s]
    decreases |s|
  {
    if |s| > 0 {
      SplitWithoutSeparator(s[1..], sep);
      assert [s[0]] + s[1..] == s;
    }
  }

  /** A separator cuts the text in two: the pieces of each side, side by side. */
  lemma {:induction false} SplitAtSeparator(a: string, sep: char, b: string)
    ensures Split(a + [sep] + b, sep) == Split(a, sep) + Split(b, sep)
    decreases |a|
  {
    if |a| == 0 {
      assert a + [sep] + b == [sep] + b;
      assert ([sep] + b)[1..] == b;
    } else {
      assert (a + [sep] + b)[1..] == a[1..] + [sep] + b;
      SplitAtSeparator(a[1..], sep, b);
    }
  }

  /** Joining the pieces of a split gives back the text. */
  lemma {:induction false} JoinSplit(s: string, sep: char)
    ensures JoinWith(Split(s, sep), sep) == s
    decreases |s|
  {
    if |s| > 0 {
      var rest := Split(s[1..], sep);
      JoinSplit(s[1..], sep);
      if s[0] == sep {
        assert Split(s, sep) == [""] + rest;
        assert ([""] + rest)[1..] == rest;
        assert s == [sep] + s[1..];
      } else {
        var pieces := [[s[0]] + rest[0]] + rest[1..];
        assert Split(s, sep) == pieces;
        if |rest| == 1 {
          assert s == [s[0]] + s[1..];
        } else {
          assert pieces[1..] == rest[1..];
          assert JoinWith(rest, sep) == rest[0] + [sep] + JoinWith(rest[1..], sep);
          assert s == [s[0]] + s[1..];
        }
      }
    }
  }

  /** Splitting the joined pieces gives back the pieces, when none holds the separator. */
  lemma {:induction false} SplitJoin(pieces: seq<string>, sep: char)
    requires |pieces| > 0
    requires forall i :: 0 <= i < |pieces| ==> sep !in pieces[i]
    ensures Split(JoinWith(pieces, sep), sep) == pieces
    decreases |pieces|
  {
    if |pieces| == 1 {
      SplitWithoutSeparator(pieces[0], sep);
    } else {
      SplitJoin(pieces[1..], sep);
      SplitAtSeparator(pieces[0], sep, JoinWith(pieces[1..], sep));
      SplitWithoutSeparator(pieces[0], sep);
      assert [pieces[0]] + pieces[1..] == pieces;
    }
  }

  lemma {:induction false} NormalPiecesOfPlain(pieces: seq<string>)
    requires forall i :: 0 <= i < |pieces| ==> Plain(pieces[i]) && '/' !in pieces[i]
    ensures NormalPieces(pieces) == pieces
    decreases |pieces|
  {
    if |pieces| > 0 {
      NormalPiecesOfPlain(pieces[1..]);
      assert [pieces[0]] + pieces[1..] == pieces;
    }
  }

  lemma {:induction false} NormalPiecesConcat(a: seq<string>, b: seq<string>)
    requires forall i :: 0 <= i < |a| ==> '/' !in a[i]
    requires forall i :: 0 <= i < |b| ==> '/' !in b[i]
    ensures NormalPieces(a + b) == NormalPieces(a) + NormalPieces(b)
    decreases |a|
  {
    if |a| > 0 {
      assert (a + b)[1..] == a[1..] + b;
      NormalPiecesConcat(a[1..], b);
    } else {
      assert a + b == b;
    }
  }

  // ---------------------------------------------------------------------------
  // Properties of the path functions

  /** The text of a well-formed path parses back into the same components. */
  lemma RenderRoundTrip(p: Path)
    requires WellFormed(p)
    ensures ComponentsOf(Render(p)) == p
  {
    if IsRooted(p) {
      RootedRoundTrip(p);
    } else {
      assert forall i :: 0 <= i < |p| ==> Plain(p[i]);
      if |p| > 0 {
        SplitJoin(p, '/');
        NormalPiecesOfPlain(p);
        assert Render(p)[0] == p[0][0];
      }
    }
  }

  lemma RootedRoundTrip(p: Path)
    requires WellFormed(p) && IsRooted(p)
    ensures ComponentsOf(Render(p)) == p
  {
    var rest := p[1..];
    assert forall i :: 0 <= i < |rest| ==> Plain(rest[i]) by {
      forall i | 0 <= i < |rest| ensures Plain(rest[i]) {
        assert rest[i] == p[i + 1];
      }
    }
    var text := JoinWith(rest, '/');
    assert Render(p) == "" + "/" + text;
    ComponentsOfSlash("", text);
    PlainRoundTrip(rest);
    assert [RootDir] + rest == p;
  }

  /** Plain components joined with '/' parse back into themselves. */
  lemma PlainRoundTrip(ps: seq<string>)
    requires forall i :: 0 <= i < |ps| ==> Plain(ps[i])
    ensures NormalPieces(Split(JoinWith(ps, '/'), '/')) == ps
  {
    if |ps| == 0 {
      assert Split("", '/') == [""];
    } else {
      SplitJoin(ps, '/');
      NormalPiecesOfPlain(ps);
    }
  }

  /** Splitting the text of a relative, well-formed, non-empty path on '/' gives its components. */
  lemma SplitRenderRelative(p: Path)
    requires WellFormed(p) && !IsRooted(p) && |p| > 0
    ensures Split(Render(p), '/') == p
  {
    assert forall i :: 0 <= i < |p| ==> Plain(p[i]);
    SplitJoin(p, '/');
  }

  /** Splitting the text of an absolute path on '/' yields an empty first piece, never the root component. */
  lemma SplitRenderRooted(p: Path)
    requires IsRooted(p)
    ensures Split(Render(p), '/')[0] == ""
  {
    var text := JoinWith(p[1..], '/');
    assert Render(p) == [('/')] + text;
    assert ([('/')] + text)[1..] == text;
  }

  /**
   * Appending "/" and more text to a non-empty path text appends the components of
   * that text; joined after an empty text, the same suffix makes the path absolute.
   */
  lemma ComponentsOfSlash(a: string, b: string)
    ensures |a| > 0 ==> ComponentsOf(a + "/" + b) == ComponentsOf(a) + NormalPieces(Split(b, '/'))
    ensures |a| == 0 ==> ComponentsOf(a + "/" + b) == [RootDir] + NormalPieces(Split(b, '/'))
  {
    SplitAtSeparator(a, '/', b);
    NormalPiecesConcat(Split(a, '/'), Split(b, '/'));
    if |a| == 0 {
      assert a + "/" + b == [('/')] + b;
      assert NormalPieces(Split(a, '/')) == [];
    } else {
      assert (a + "/" + b)[0] == a[0];
    }
  }

  /** A plain name parses into itself alone. */
  lemma ComponentsOfPlain(c: string)
    requires Plain(c)
    ensures ComponentsOf(c) == [c]
    ensures NormalPieces(Split(c, '/')) == [c]
  {
    SplitWithoutSeparator(c, '/');
  }

  // ---------------------------------------------------------------------------
  // Whitespace-delimited tokens (`str::split_whitespace`)

  /** Unicode White_Space, the set `split_whitespace` splits on. */
  predicate IsWhitespace(c: char) {
    ('\U{9}' <= c <= '\U{D}') || c == ' ' || c == '\U{85}' || c == '\U{A0}' || c == '\U{1680}'
    || ('\U{2000}' <= c <= '\U{200A}') || c == '\U{2028}' || c == '\U{2029}' || c == '\U{202F}'
    || c == '\U{205F}' || c == '\U{3000}'
  }

  /** The text has at least one whitespace-delimited token. */
  predicate HasToken(s: string) {
    |s| > 0 && (!IsWhitespace(s[0]) || HasToken(s[1..]))
  }

  /** The text with its leading whitespace removed. */
  function TrimStart(s: string): (r: string)
    ensures |r| <= |s| && r == s[|s| - |r|..]
    ensures forall i :: 0 <= i < |s| - |r| ==> IsWhitespace(s[i])
    ensures |r| > 0 ==> !IsWhitespace(r[0])
    decreases |s|
  {
    if |s| > 0 && IsWhitespace(s[0]) then TrimStart(s[1..]) else s
  }

  /** The longest prefix without whitespace. */
  function TakeToken(s: string): (r: string)
    ensures |r| <= |s| && r == s[..|r|]
    ensures forall i :: 0 <= i < |r| ==> !IsWhitespace(r[i])
    ensures |r| < |s| ==> IsWhitespace(s[|r|])
    decreases |s|
  {
    if |s| == 0 || IsWhitespace(s[0]) then "" else [s[0]] + TakeToken(s[1..])
  }

  /** `split_whitespace().next()`, for a text that has a token. */
  function FirstToken(s: string): (r: string)
    requires HasToken(s)
    ensures |r| > 0
    ensures forall i :: 0 <= i < |r| ==> !IsWhitespace(r[i])
  {
    TrimStartToken(s);
    TakeToken(TrimStart(s))
  }

  lemma {:induction false} TrimStartToken(s: string)
    requires HasToken(s)
    ensures |TrimStart(s)| > 0
    decreases |s|
  {
    if IsWhitespace(s[0]) {
      TrimStartToken(s[1..]);
    }
  }
}
