/** What the rewriter does to a file, line by line, and exactly when running it twice is harmless. */
module FixAsyncTheory {
  import opened Text
  import opened FixAsync

  // ----- regions, without the state machine

  /** Line h opens a test and nothing up to and including line i opens or closes another. */
  ghost predicate InTestOf(word: char -> bool, lines: seq<string>, h: int, i: int) {
    && 0 <= h < i < |lines|
    && KindOf(word, lines[h]) == Header
    && forall k :: h < k <= i ==> KindOf(word, lines[k]) == Plain
  }

  ghost predicate Covered(word: char -> bool, lines: seq<string>, i: int) {
    exists h :: InTestOf(word, lines, h, i)
  }

  /** No earlier line of the same test has an `await`. */
  ghost predicate FirstAwait(word: char -> bool, lines: seq<string>, i: int) {
    exists h :: InTestOf(word, lines, h, i) && forall k :: h < k < i ==> !Contains(lines[k], AWAIT)
  }

  /** What line i becomes: itself, its rewrite, or its rewrite under the test's one import. */
  ghost function Piece(word: char -> bool, lines: seq<string>, i: nat): seq<Out>
    requires i < |lines|
  {
    if !Covered(word, lines, i) || !Contains(lines[i], AWAIT) then [Kept(lines[i])]
    else if FirstAwait(word, lines, i) then [Import(ImportLine(lines[i])), Rewritten(Rewrite(lines[i]))]
    else [Rewritten(Rewrite(lines[i]))]
  }

  ghost function Pieces(word: char -> bool, lines: seq<string>, n: nat): seq<Out>
    requires n <= |lines|
  {
    if n == 0 then [] else Pieces(word, lines, n - 1) + Piece(word, lines, n - 1)
  }

  /** The flags before line i. */
  function RegionAt(word: char -> bool, lines: seq<string>, i: nat): Region
    requires i <= |lines|
  {
    if i == 0 then OUTSIDE else Next(word, RegionAt(word, lines, i - 1), lines[i - 1])
  }

  /** The two flags mean: a test is open, and an `await` has been seen in it. */
  lemma {:induction false} FlagsMean(word: char -> bool, lines: seq<string>, i: nat)
    requires i <= |lines|
    ensures RegionAt(word, lines, i).inTest <==> exists h :: OpenAt(word, lines, h, i)
    ensures forall h :: OpenAt(word, lines, h, i) ==>
      (RegionAt(word, lines, i).added <==> exists k :: h < k < i && Contains(lines[k], AWAIT))
    ensures !RegionAt(word, lines, i).inTest ==> !RegionAt(word, lines, i).added
  {
    hide KindOf, Contains, Rewrite, ImportLine;
    if i > 0 {
      FlagsMean(word, lines, i - 1);
      var r := RegionAt(word, lines, i - 1);
      match KindOf(word, lines[i - 1])
      case Header =>
        assert OpenAt(word, lines, i - 1, i);
      case Closer =>
      case Plain =>
        forall h: int
          ensures h != i - 1 ==> (OpenAt(word, lines, h, i) <==> OpenAt(word, lines, h, i - 1))
        {
        }
        if r.inTest {
          var h :| OpenAt(word, lines, h, i - 1);
          assert OpenAt(word, lines, h, i);
        }
    }
  }

  ghost predicate OpenAt(word: char -> bool, lines: seq<string>, h: int, i: int) {
    && 0 <= h < i <= |lines|
    && KindOf(word, lines[h]) == Header
    && forall k :: h < k < i ==> KindOf(word, lines[k]) == Plain
  }

  lemma InTestMeansOpen(word: char -> bool, lines: seq<string>, i: nat)
    requires i <= |lines|
    ensures RegionAt(word, lines, i).inTest <==> exists h :: OpenAt(word, lines, h, i)
  {
    FlagsMean(word, lines, i);
  }

  lemma CoveredIsOpen(word: char -> bool, lines: seq<string>, i: nat)
    requires i < |lines|
    ensures Covered(word, lines, i) <==> RegionAt(word, lines, i).inTest && KindOf(word, lines[i]) == Plain
  {
    hide *;
    InTestMeansOpen(word, lines, i);
    OpenThenPlain(word, lines, i);
    CoveredMeans(word, lines, i);
  }

  lemma CoveredMeans(word: char -> bool, lines: seq<string>, i: nat)
    ensures Covered(word, lines, i) <==> exists h :: InTestOf(word, lines, h, i)
  {
    hide InTestOf;
  }

  lemma OpenThenPlain(word: char -> bool, lines: seq<string>, i: nat)
    requires i < |lines|
    ensures forall h :: InTestOf(word, lines, h, i) <==> OpenAt(word, lines, h, i) && KindOf(word, lines[i]) == Plain
  {
    hide KindOf;
  }

  lemma FirstIsNotAdded(word: char -> bool, lines: seq<string>, i: nat)
    requires i < |lines| && Covered(word, lines, i)
    ensures FirstAwait(word, lines, i) <==> !RegionAt(word, lines, i).added
  {
    FlagsMean(word, lines, i);
    hide KindOf, RegionAt, Contains;
    var h :| InTestOf(word, lines, h, i);
    assert OpenAt(word, lines, h, i);
    if FirstAwait(word, lines, i) {
      var g :| InTestOf(word, lines, g, i) && forall k :: g < k < i ==> !Contains(lines[k], AWAIT);
      assert OpenAt(word, lines, g, i);
    }
  }

  /** One turn of the state machine emits the piece of its line. */
  lemma EmitIsPiece(word: char -> bool, lines: seq<string>, i: nat)
    requires i < |lines|
    ensures Emit(word, RegionAt(word, lines, i), lines[i]) == Piece(word, lines, i)
  {
    CoveredIsOpen(word, lines, i);
    if Covered(word, lines, i) {
      FirstIsNotAdded(word, lines, i);
    }
    hide KindOf, RegionAt, Contains, Rewrite, ImportLine, Covered, FirstAwait;
  }

  lemma {:induction false} ProcessFrom(word: char -> bool, lines: seq<string>, i: nat)
    requires i <= |lines|
    ensures Process(word, OUTSIDE, lines)
      == Pieces(word, lines, i) + Process(word, RegionAt(word, lines, i), lines[i..])
  {
    hide Piece, Emit, Next;
    if i == 0 {
      assert lines[0..] == lines;
    } else {
      ProcessFrom(word, lines, i - 1);
      EmitIsPiece(word, lines, i - 1);
      assert lines[i - 1..][1..] == lines[i..];
    }
  }

  /** The whole run is the concatenation of the pieces: a closed form without any flags. */
  lemma ProcessIsPieces(word: char -> bool, lines: seq<string>)
    ensures Process(word, OUTSIDE, lines) == Pieces(word, lines, |lines|)
  {
    ProcessFrom(word, lines, |lines|);
    assert lines[|lines|..] == [];
  }

  /** Deleting the inserted imports. */
  function Body(outs: seq<Out>): seq<Out> {
    if outs == [] then []
    else Body(outs[..|outs| - 1]) + (if outs[|outs| - 1].Import? then [] else [outs[|outs| - 1]])
  }

  lemma {:induction false} BodyAppend(a: seq<Out>, b: seq<Out>)
    ensures Body(a + b) == Body(a) + Body(b)
  {
    if b == [] {
      assert a + b == a;
    } else {
      BodyAppend(a, b[..|b| - 1]);
      assert (a + b)[..|a + b| - 1] == a + b[..|b| - 1];
    }
  }

  ghost function Image(word: char -> bool, lines: seq<string>, i: nat): Out
    requires i < |lines|
  {
    if Covered(word, lines, i) && Contains(lines[i], AWAIT) then Rewritten(Rewrite(lines[i])) else Kept(lines[i])
  }

  lemma {:induction false} BodyOfPieces(word: char -> bool, lines: seq<string>, n: nat)
    requires n <= |lines|
    ensures var body := Body(Pieces(word, lines, n));
      |body| == n && forall i :: 0 <= i < n ==> body[i] == Image(word, lines, i)
  {
    hide *;
    PiecesStep(word, lines, n);
    if n > 0 {
      BodyOfPieces(word, lines, n - 1);
      BodyAppend(Pieces(word, lines, n - 1), Piece(word, lines, n - 1));
      PieceImage(word, lines, n - 1);
    }
  }

  lemma PiecesStep(word: char -> bool, lines: seq<string>, n: nat)
    requires n <= |lines|
    ensures n == 0 ==> Body(Pieces(word, lines, n)) == []
    ensures n > 0 ==> Pieces(word, lines, n) == Pieces(word, lines, n - 1) + Piece(word, lines, n - 1)
  {
    hide Piece;
  }

  lemma PieceImage(word: char -> bool, lines: seq<string>, i: nat)
    requires i < |lines|
    ensures Body(Piece(word, lines, i)) == [Image(word, lines, i)]
  {
    BodyOfPiece(Piece(word, lines, i));
    hide KindOf, Contains, Rewrite, ImportLine, Covered, FirstAwait, Body;
  }

  lemma BodyOfPiece(piece: seq<Out>)
    ensures |piece| == 1 && !piece[0].Import? ==> Body(piece) == piece
    ensures |piece| == 2 && piece[0].Import? && !piece[1].Import? ==> Body(piece) == [piece[1]]
  {
    if |piece| == 1 {
      assert piece[..0] == [];
    } else if |piece| == 2 && piece[0].Import? {
      assert Body(piece[..1]) == [] by {
        assert piece[..1][..0] == [];
      }
    }
  }

  /** Without the imports the output is the input, line for line: kept, or rewritten iff it awaits inside a test. */
  lemma OutputIsALineImage(word: char -> bool, lines: seq<string>)
    ensures var body := Body(Process(word, OUTSIDE, lines));
      |body| == |lines| && forall i :: 0 <= i < |lines| ==> body[i] == Image(word, lines, i)
  {
    ProcessIsPieces(word, lines);
    BodyOfPieces(word, lines, |lines|);
  }

  /** Every awaiting test has exactly one first awaiting line, and that piece alone carries the import. */
  lemma OneImportPerTest(word: char -> bool, lines: seq<string>, h: int, i: int, j: int)
    requires InTestOf(word, lines, h, i) && Contains(lines[i], AWAIT)
    requires InTestOf(word, lines, h, j) && Contains(lines[j], AWAIT)
    ensures FirstAwait(word, lines, i) && FirstAwait(word, lines, j) ==> i == j
    ensures exists f :: h < f <= i && Contains(lines[f], AWAIT) && FirstAwait(word, lines, f)
    ensures FirstAwait(word, lines, i) <==> Piece(word, lines, i)[0].Import?
  {
    hide KindOf, Contains, Rewrite, ImportLine;
    OneHeader(word, lines, h, i);
    OneHeader(word, lines, h, j);
    var f := h + 1;
    while !Contains(lines[f], AWAIT)
      invariant h < f <= i
      invariant forall k :: h < k < f ==> !Contains(lines[k], AWAIT)
      decreases i - f
    {
      f := f + 1;
    }
    assert InTestOf(word, lines, h, f);
    assert FirstAwait(word, lines, f);
  }

  lemma OneHeader(word: char -> bool, lines: seq<string>, h: int, i: int)
    requires InTestOf(word, lines, h, i)
    ensures forall g :: InTestOf(word, lines, g, i) ==> g == h
  {
    hide KindOf;
  }

  // ----- lines, from their characters

  /** A rewritten line: the first `await ` becomes a call, closed at the end of the line. */
  lemma RewriteFromTheLine(before: string, after: string)
    requires Find(before + "await " + after, "await ") == |before|
    ensures Rewrite(before + "await " + after) == RStrip(before + "asyncio.run(" + after) + ")"
  {
    var line := before + "await " + after;
    assert line[..|before|] == before && line[|before| + 6..] == after;
  }

  /** The inserted line: as many spaces as the line is indented, and the import. */
  lemma ImportFromTheLine(indent: string, rest: string)
    requires (forall k :: 0 <= k < |indent| ==> IsSpace(indent[k])) && (rest != "" ==> !IsSpace(rest[0]))
    ensures ImportLine(indent + rest) == seq(|indent|, _ => ' ') + "import asyncio"
  {
    var line := indent + rest;
    assert forall k :: 0 <= k < |indent| ==> line[k] == indent[k];
    if rest == "" {
      assert line == indent;
    } else {
      assert line[|indent|] == rest[0];
      LeadIs(line, |indent|);
    }
  }

  /** Headers open a test: `def test_`, word characters, `(self):`, whatever surrounds the line. */
  lemma HeaderFromTheLine(word: char -> bool, line: string, name: string, rest: string)
    requires Strip(line) == "def test_" + name + "(self):" + rest
    requires name != "" && forall k :: 0 <= k < |name| ==> word(name[k])
    ensures KindOf(word, line) == Header
  {
    var s, k := Strip(line), 9 + |name|;
    assert s[..9] == "def test_";
    assert forall j :: 9 <= j < k ==> s[j] == name[j - 9];
    assert s[k..] == "(self):" + rest;
    assert s[k..][..7] == "(self):";
    hide Strip;
  }

  /** Any other definition, and a class, close it; comments, blank lines and everything else do not. */
  lemma CloserFromTheLine(word: char -> bool, line: string)
    requires !IsTestDef(word, Strip(line))
    ensures var s := Strip(line);
      KindOf(word, line) == Closer <==>
        || (|s| >= 4 && s[..4] == "def ")
        || (|s| > 6 && s[..6] == "class " && word(s[6]))
    ensures KindOf(word, line) != Header
  {
    hide Strip, IsTestDef;
    var s := Strip(line);
    if |s| >= 4 && s[..4] == "def " {
      assert s[0] == s[..4][0] == 'd';
      NotAComment(s);
    }
    if |s| > 6 && s[..6] == "class " {
      assert s[0] == s[..6][0] == 'c';
      NotAComment(s);
    }
  }

  lemma NotAComment(s: string)
    requires s != "" && s[0] in "cd"
    ensures !IsComment(s)
  {
    if |s| >= 1 {
      assert s[..1][0] == s[0];
    }
    if |s| >= 3 {
      assert s[..3][0] == s[0];
    }
  }

  /** A test definition is nothing but one. */
  lemma TestDefFromTheText(word: char -> bool, s: string) returns (k: nat)
    requires IsTestDef(word, s)
    ensures 9 < k <= |s| - 7 && s[..9] == "def test_" && s[k..k + 7] == "(self):"
    ensures forall j :: 9 <= j < k ==> word(s[j])
  {
    k :| 9 < k <= |s| && (forall j | 9 <= j < k :: word(s[j])) && StartsWith(s[k..], "(self):");
    assert s[k..k + 7] == s[k..][..7];
  }
}
