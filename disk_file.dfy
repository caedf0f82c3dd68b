/**
 * DiskFile of tess.py: reading a text file of "x y" lines into paths, a
 * short line closing the current path. The file is given as the sequence of
 * lines its iterator yields (each with its line terminator), and number
 * conversion is a parameter that fails with `None`.
 */
module DiskFile {
  import opened Common

  /** A point as the reader stores it: `(x, y, 0)`. */
  datatype Point<N> = Point(x: N, y: N, z: int)

  /** Characters that Python 2's `str.split()` treats as whitespace. */
  predicate IsSpace(ch: char)
  {
    ch == ' ' || ch == '\t' || ch == '\n' || ch == '\r' || ch == '\U{000B}' || ch == '\U{000C}'
  }

  /** Number of characters before the first whitespace character of `s`. */
  function WordLength(s: string): (n: nat)
    ensures n <= |s|
    ensures forall i :: 0 <= i < n ==> !IsSpace(s[i])
    ensures n == |s| || IsSpace(s[n])
  {
    if s == [] || IsSpace(s[0]) then 0 else 1 + WordLength(s[1..])
  }

  /** The characters of `s` that are not whitespace, in order. */
  function NonSpace(s: string): string
  {
    if s == [] then [] else (if IsSpace(s[0]) then [] else [s[0]]) + NonSpace(s[1..])
  }

  /** `str.split()`: the maximal runs of non-whitespace characters, in order. */
  function Tokens(s: string): (r: seq<string>)
    ensures forall k :: 0 <= k < |r| ==> r[k] != []
    ensures forall k, i :: 0 <= k < |r| && 0 <= i < |r[k]| ==> !IsSpace(r[k][i])
    decreases |s|
  {
    if s == [] then []
    else if IsSpace(s[0]) then Tokens(s[1..])
    else
      var n := WordLength(s);
      [s[..n]] + Tokens(s[n..])
  }

  /** A word is all non-whitespace, so filtering leaves it as it is. */
  lemma {:induction false} NonSpaceOfWord(s: string, n: nat)
    requires n <= |s| && forall i :: 0 <= i < n ==> !IsSpace(s[i])
    ensures NonSpace(s) == s[..n] + NonSpace(s[n..])
    decreases n
  {
    if n > 0 {
      NonSpaceOfWord(s[1..], n - 1);
      assert s[1..][n - 1..] == s[n..];
      assert s[..n] == [s[0]] + s[1..][..n - 1];
    }
  }

  /** Splitting loses only whitespace: the tokens concatenated are the non-whitespace characters of the line. */
  lemma {:induction false} TokensCoverText(s: string)
    ensures Flatten(Tokens(s)) == NonSpace(s)
    decreases |s|
  {
    if s != [] {
      if IsSpace(s[0]) {
        TokensCoverText(s[1..]);
      } else {
        var n := WordLength(s);
        TokensCoverText(s[n..]);
        FlattenCons(s[..n], Tokens(s[n..]));
        NonSpaceOfWord(s, n);
      }
    }
  }

  /** A non-empty run without whitespace is one token. */
  lemma TokensOfWord(w: string)
    requires w != [] && forall i :: 0 <= i < |w| ==> !IsSpace(w[i])
    ensures Tokens(w) == [w]
  {
    assert WordLength(w) == |w|;
    assert w[..|w|] == w && w[|w|..] == [];
  }

  /** The leading word stops at the first whitespace character at the latest. */
  lemma {:induction false} WordLengthBeforeSpace(a: string, ch: char, b: string)
    requires IsSpace(ch)
    ensures WordLength(a + [ch] + b) == WordLength(a)
    decreases |a|
  {
    if a != [] && !IsSpace(a[0]) {
      assert (a + [ch] + b)[1..] == a[1..] + [ch] + b;
      WordLengthBeforeSpace(a[1..], ch, b);
    }
  }

  /** Whitespace separates tokens: no token spans a whitespace character. */
  lemma {:induction false} TokensAcrossSpace(a: string, ch: char, b: string)
    requires IsSpace(ch)
    ensures Tokens(a + [ch] + b) == Tokens(a) + Tokens(b)
    decreases |a|
  {
    var s := a + [ch] + b;
    if a == [] {
      assert s == [ch] + b && s[1..] == b;
    } else if IsSpace(a[0]) {
      assert s[1..] == a[1..] + [ch] + b;
      TokensAcrossSpace(a[1..], ch, b);
    } else {
      var n := WordLength(a);
      WordLengthBeforeSpace(a, ch, b);
      assert s[..n] == a[..n];
      assert s[n..] == a[n..] + [ch] + b;
      TokensAcrossSpace(a[n..], ch, b);
    }
  }

  /** A line shorter than two characters (an empty line with its terminator) closes the current path. */
  predicate IsBreak(line: string)
  {
    |line| < 2
  }

  /** A line that splits into exactly two tokens and should become a point. */
  predicate IsPointLine(line: string)
  {
    !IsBreak(line) && |Tokens(line)| == 2
  }

  /** A point line one of whose tokens does not convert: reading the file fails. */
  predicate IsMalformed<N>(line: string, parse: string -> Option<N>)
  {
    IsPointLine(line) && (parse(Tokens(line)[0]).None? || parse(Tokens(line)[1]).None?)
  }

  /** The reader's state after some lines: the closed paths and the path being filled. */
  datatype Reading<N> = Reading(paths: seq<seq<Point<N>>>, path: seq<Point<N>>)

  /** The effect of one line on the reader; `None` when a conversion fails. */
  function ReadLine<N>(rd: Reading<N>, line: string, parse: string -> Option<N>): Option<Reading<N>>
  {
    if IsBreak(line) then Some(Reading(rd.paths + [rd.path], []))
    else if |Tokens(line)| == 2 then
      match parse(Tokens(line)[0])
      case None => None
      case Some(x) =>
        match parse(Tokens(line)[1])
        case None => None
        case Some(y) => Some(Reading(rd.paths, rd.path + [Point(x, y, 0)]))
    else Some(rd)
  }

  /** The reader's state after all of `lines`, in order. */
  function ReadPrefix<N>(lines: seq<string>, parse: string -> Option<N>): Option<Reading<N>>
    decreases |lines|
  {
    if lines == [] then Some(Reading([], []))
    else match ReadPrefix(lines[..|lines| - 1], parse)
      case None => None
      case Some(rd) => ReadLine(rd, lines[|lines| - 1], parse)
  }

  /** The paths a DiskFile holds for `lines`: the closed ones and then the last one, always. */
  function ReadPaths<N>(lines: seq<string>, parse: string -> Option<N>): Option<seq<seq<Point<N>>>>
  {
    match ReadPrefix(lines, parse)
    case None => None
    case Some(rd) => Some(rd.paths + [rd.path])
  }

  /** Number of lines that close a path. */
  function CountBreaks(lines: seq<string>): nat
  {
    if lines == [] then 0
    else CountBreaks(lines[..|lines| - 1]) + (if IsBreak(lines[|lines| - 1]) then 1 else 0)
  }

  /** The points the point lines of `lines` stand for, in file order (lines that do not convert give none). */
  function FilePoints<N>(lines: seq<string>, parse: string -> Option<N>): (r: seq<Point<N>>)
    ensures forall k :: 0 <= k < |r| ==> r[k].z == 0
  {
    if lines == [] then []
    else
      var line := lines[|lines| - 1];
      FilePoints(lines[..|lines| - 1], parse)
        + (if IsPointLine(line) && parse(Tokens(line)[0]).Some? && parse(Tokens(line)[1]).Some?
           then [Point(parse(Tokens(line)[0]).value, parse(Tokens(line)[1]).value, 0)]
           else [])
  }

  /** A failed conversion is final: no later line undoes it. */
  lemma {:induction false} FailureSticks<N>(lines: seq<string>, parse: string -> Option<N>, i: nat)
    requires i <= |lines| && ReadPrefix(lines[..i], parse).None?
    ensures ReadPrefix(lines, parse).None?
    decreases |lines| - i
  {
    if i < |lines| {
      assert lines[..i + 1][..i] == lines[..i];
      FailureSticks(lines, parse, i + 1);
    } else {
      assert lines[..i] == lines;
    }
  }

  /** What the reader holds after `lines`: one closed path per break line, and all points in file order. */
  lemma {:induction false} ReadPrefixInvariant<N>(lines: seq<string>, parse: string -> Option<N>)
    requires ReadPrefix(lines, parse).Some?
    ensures |ReadPrefix(lines, parse).value.paths| == CountBreaks(lines)
    ensures Flatten(ReadPrefix(lines, parse).value.paths) + ReadPrefix(lines, parse).value.path == FilePoints(lines, parse)
    decreases |lines|
  {
    if lines != [] {
      var init := lines[..|lines| - 1];
      ReadPrefixInvariant(init, parse);
      var rd := ReadPrefix(init, parse).value;
      if IsBreak(lines[|lines| - 1]) {
        FlattenSnoc(rd.paths, rd.path);
      }
    }
  }

  /** A successful read holds one path more than there are break lines. */
  lemma {:induction false} ReadPathsCount<N>(lines: seq<string>, parse: string -> Option<N>)
    requires ReadPaths(lines, parse).Some?
    ensures |ReadPaths(lines, parse).value| == CountBreaks(lines) + 1
  {
    ReadPrefixInvariant(lines, parse);
  }

  /**
   * A successful read loses and invents no point: its paths, concatenated,
   * are the points of the two-token lines in file order, each with z = 0.
   */
  lemma {:induction false} ReadPathsPoints<N>(lines: seq<string>, parse: string -> Option<N>)
    requires ReadPaths(lines, parse).Some?
    ensures Flatten(ReadPaths(lines, parse).value) == FilePoints(lines, parse)
    ensures forall p, pt :: p in ReadPaths(lines, parse).value && pt in p ==> pt.z == 0
  {
    var rd := ReadPrefix(lines, parse).value;
    ReadPrefixInvariant(lines, parse);
    FlattenSnoc(rd.paths, rd.path);
    var paths := ReadPaths(lines, parse).value;
    forall p, pt | p in paths && pt in p
      ensures pt.z == 0
    {
      FlattenContains(paths, p, pt);
    }
  }

  /** A file without break lines reads as one path holding all its points. */
  lemma SinglePath<N>(lines: seq<string>, parse: string -> Option<N>)
    requires CountBreaks(lines) == 0 && ReadPaths(lines, parse).Some?
    ensures ReadPaths(lines, parse).value == [FilePoints(lines, parse)]
  {
    ReadPrefixInvariant(lines, parse);
    var rd := ReadPrefix(lines, parse).value;
    assert rd.paths == [] && Flatten(rd.paths) == [];
    assert Flatten(rd.paths) + rd.path == rd.path;
    assert rd.paths + [rd.path] == [rd.path];
  }

  /** One line read on top of more closed paths gives the same result with those paths in front. */
  lemma ReadLineShift<N>(front: seq<seq<Point<N>>>, rd: Reading<N>, line: string, parse: string -> Option<N>)
    ensures ReadLine(Reading(front + rd.paths, rd.path), line, parse)
         == match ReadLine(rd, line, parse)
            case None => None
            case Some(next) => Some(Reading(front + next.paths, next.path))
  {
    if IsBreak(line) {
      assert front + rd.paths + [rd.path] == front + (rd.paths + [rd.path]);
    }
  }

  /** The reader's state across a break line: the closed paths of both sides, and the open path of the right side. */
  lemma {:induction false} ReadPrefixAcrossBreak<N>(a: seq<string>, b: string, c: seq<string>, parse: string -> Option<N>)
    requires IsBreak(b)
    ensures ReadPrefix(a + [b] + c, parse)
         == match ReadPrefix(a, parse)
            case None => None
            case Some(ra) =>
              match ReadPrefix(c, parse)
              case None => None
              case Some(rc) => Some(Reading(ra.paths + [ra.path] + rc.paths, rc.path))
    decreases |c|
  {
    var whole := a + [b] + c;
    if ReadPrefix(a, parse).None? {
      assert whole[..|a|] == a;
      FailureSticks(whole, parse, |a|);
    } else if c == [] {
      assert whole[..|whole| - 1] == a && whole[|whole| - 1] == b;
      assert ReadPrefix(a, parse).value.paths + [ReadPrefix(a, parse).value.path] + []
          == ReadPrefix(a, parse).value.paths + [ReadPrefix(a, parse).value.path];
    } else {
      var init := c[..|c| - 1];
      var last := c[|c| - 1];
      assert whole[..|whole| - 1] == a + [b] + init && whole[|whole| - 1] == last;
      ReadPrefixAcrossBreak(a, b, init, parse);
      var ra := ReadPrefix(a, parse).value;
      match ReadPrefix(init, parse)
      case None =>
      case Some(ri) =>
        ReadLineShift(ra.paths + [ra.path], ri, last, parse);
        match ReadLine(ri, last, parse)
        case None =>
        case Some(rc) =>
          assert ra.paths + [ra.path] + rc.paths == (ra.paths + [ra.path]) + rc.paths;
    }
  }

  /**
   * A break line splits the file into two files read independently: the
   * paths of the whole are those of the lines before it followed by those of
   * the lines after it, and the whole fails when either side does.
   */
  lemma ReadPathsAcrossBreak<N>(a: seq<string>, b: string, c: seq<string>, parse: string -> Option<N>)
    requires IsBreak(b)
    ensures ReadPaths(a + [b] + c, parse)
         == match ReadPaths(a, parse)
            case None => None
            case Some(pa) =>
              match ReadPaths(c, parse)
              case None => None
              case Some(pc) => Some(pa + pc)
  {
    ReadPrefixAcrossBreak(a, b, c, parse);
    match ReadPrefix(a, parse)
    case None =>
    case Some(ra) =>
      match ReadPrefix(c, parse)
      case None =>
      case Some(rc) =>
        assert ra.paths + [ra.path] + rc.paths + [rc.path] == (ra.paths + [ra.path]) + (rc.paths + [rc.path]);
  }

  /** Reading fails exactly when some point line has a token that does not convert. */
  lemma {:induction false} ReadPathsFails<N>(lines: seq<string>, parse: string -> Option<N>)
    ensures ReadPaths(lines, parse).None? <==> exists i :: 0 <= i < |lines| && IsMalformed(lines[i], parse)
    decreases |lines|
  {
    if lines != [] {
      var init := lines[..|lines| - 1];
      var last := lines[|lines| - 1];
      ReadPathsFails(init, parse);
      if exists i :: 0 <= i < |init| && IsMalformed(init[i], parse) {
        var i :| 0 <= i < |init| && IsMalformed(init[i], parse);
        assert lines[i] == init[i];
      }
      if exists i :: 0 <= i < |lines| && IsMalformed(lines[i], parse) {
        var i :| 0 <= i < |lines| && IsMalformed(lines[i], parse);
        if i < |init| {
          assert init[i] == lines[i];
        }
      }
    }
  }

  /**
   * `DiskFile.__init__`: the loop over the lines, building the current path
   * and the list of paths; `None` when a conversion fails (the source exits).
   */
  method ReadLines<N>(lines: seq<string>, parse: string -> Option<N>) returns (r: Option<seq<seq<Point<N>>>>)
    ensures r == ReadPaths(lines, parse)
  {
    var paths: seq<seq<Point<N>>> := [];
    var path: seq<Point<N>> := [];
    for i := 0 to |lines|
      invariant ReadPrefix(lines[..i], parse) == Some(Reading(paths, path))
    {
      assert lines[..i + 1][..i] == lines[..i];
      var line := lines[i];
      if |line| < 2 {
        paths := paths + [path];
        path := [];
      } else {
        var tokens := Tokens(line);
        if |tokens| == 2 {
          var x := parse(tokens[0]);
          var y := parse(tokens[1]);
          if x.None? || y.None? {
            FailureSticks(lines, parse, i + 1);
            return None;
          }
          path := path + [Point(x.value, y.value, 0)];
        }
      }
    }
    assert lines[..|lines|] == lines;
    r := Some(paths + [path]);
  }

  /** How `str.split()` splits the two point lines of the scenario below. */
  lemma ScenarioTokens()
    ensures Tokens("1 2\n") == ["1", "2"] && Tokens("2 1\n") == ["2", "1"]
  {
    assert Tokens("\n") == [] by {
      assert "\n"[1..] == [];
    }
    assert Tokens("1 2\n") == ["1", "2"] by {
      assert WordLength(" 2\n") == 0 && WordLength("1 2\n") == 1;
      assert WordLength("\n") == 0 && WordLength("2\n") == 1;
      assert "1 2\n"[..1] == "1" && "1 2\n"[1..] == " 2\n";
      assert " 2\n"[1..] == "2\n" && "2\n"[..1] == "2" && "2\n"[1..] == "\n";
      assert Tokens("2\n") == ["2"];
      assert Tokens(" 2\n") == ["2"];
    }
    assert Tokens("2 1\n") == ["2", "1"] by {
      assert WordLength(" 1\n") == 0 && WordLength("2 1\n") == 1;
      assert WordLength("\n") == 0 && WordLength("1\n") == 1;
      assert "2 1\n"[..1] == "2" && "2 1\n"[1..] == " 1\n";
      assert " 1\n"[1..] == "1\n" && "1\n"[..1] == "1" && "1\n"[1..] == "\n";
      assert Tokens("1\n") == ["1"];
      assert Tokens(" 1\n") == ["1"];
    }
  }

  /** A file with a point, an empty line and a point reads as two one-point paths. */
  lemma TwoPathsScenario(parse: string -> Option<int>)
    requires parse("1") == Some(1) && parse("2") == Some(2)
    ensures ReadPaths(["1 2\n", "\n", "2 1\n"], parse) == Some([[Point(1, 2, 0)], [Point(2, 1, 0)]])
  {
    ScenarioTokens();
    var lines := ["1 2\n", "\n", "2 1\n"];
    var first := Reading([], [Point(1, 2, 0)]);
    var second := Reading([[Point(1, 2, 0)]], []);
    var third := Reading([[Point(1, 2, 0)]], [Point(2, 1, 0)]);
    assert ReadLine(Reading([], []), "1 2\n", parse) == Some(first) by {
      assert [] + [Point(1, 2, 0)] == [Point(1, 2, 0)];
    }
    assert ReadLine(first, "\n", parse) == Some(second) by {
      assert [] + [[Point(1, 2, 0)]] == [[Point(1, 2, 0)]];
    }
    assert ReadLine(second, "2 1\n", parse) == Some(third) by {
      assert [] + [Point(2, 1, 0)] == [Point(2, 1, 0)];
    }
    assert ReadPrefix(lines[..1], parse) == Some(first) by {
      assert lines[..1] == ["1 2\n"] && lines[..1][..0] == [];
    }
    assert ReadPrefix(lines[..2], parse) == Some(second) by {
      assert lines[..2] == ["1 2\n", "\n"] && lines[..2][..1] == lines[..1];
    }
    assert ReadPrefix(lines, parse) == Some(third) by {
      assert lines[..2] == lines[..|lines| - 1];
    }
    assert [[Point(1, 2, 0)]] + [[Point(2, 1, 0)]] == [[Point(1, 2, 0)], [Point(2, 1, 0)]];
  }
}
