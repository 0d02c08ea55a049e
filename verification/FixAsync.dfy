/** The line rewriter that turns `await` in synchronous test functions into `asyncio.run(...)`. */
module FixAsync {
  import opened Text

  const AWAIT := "await "
  const RUN := "asyncio.run("
  const IMPORT := "import asyncio"

  /** What a stripped line does to the region: opens it, closes it, or neither. */
  datatype Kind = Header | Closer | Plain

  datatype Region = Region(inTest: bool, added: bool)

  const OUTSIDE := Region(false, false)

  /** An output line, with where it came from. */
  datatype Out = Import(text: string) | Kept(text: string) | Rewritten(text: string)

  /** `def test_\w+\(self\):` at the start; `word` is the regular expression's `\w`. */
  predicate IsTestDef(word: char -> bool, s: string) {
    StartsWith(s, "def test_") &&
    exists k | 9 < k <= |s| :: (forall j | 9 <= j < k :: word(s[j])) && StartsWith(s[k..], "(self):")
  }

  /** `class \w+` at the start. */
  predicate IsClass(word: char -> bool, s: string) {
    StartsWith(s, "class ") && |s| > 6 && word(s[6])
  }

  predicate IsComment(s: string) {
    StartsWith(s, "#") || StartsWith(s, "\"\"\"") || StartsWith(s, "'''")
  }

  function KindOf(word: char -> bool, line: string): Kind {
    var s := Strip(line);
    if IsTestDef(word, s) then Header
    else if s != "" && !IsComment(s) && (StartsWith(s, "def ") || IsClass(word, s)) then Closer
    else Plain
  }

  function Rewrite(line: string): string {
    RStrip(ReplaceFirst(line, AWAIT, RUN)) + ")"
  }

  function ImportLine(line: string): string {
    seq(Lead(line), _ => ' ') + IMPORT
  }

  // ----- the state machine

  function Next(word: char -> bool, r: Region, line: string): Region {
    match KindOf(word, line)
    case Header => Region(true, false)
    case Closer => if r.inTest then OUTSIDE else r
    case Plain => if r.inTest && Contains(line, AWAIT) then Region(true, true) else r
  }

  function Emit(word: char -> bool, r: Region, line: string): seq<Out> {
    if !r.inTest || KindOf(word, line) != Plain || !Contains(line, AWAIT) then [Kept(line)]
    else if r.added then [Rewritten(Rewrite(line))]
    else [Import(ImportLine(line)), Rewritten(Rewrite(line))]
  }

  function Process(word: char -> bool, r: Region, lines: seq<string>): seq<Out>
    decreases |lines|
  {
    if lines == [] then []
    else Emit(word, r, lines[0]) + Process(word, Next(word, r, lines[0]), lines[1..])
  }

  function Texts(outs: seq<Out>): (ts: seq<string>)
    ensures |ts| == |outs|
  {
    seq(|outs|, i requires 0 <= i < |outs| => outs[i].text)
  }

  function FixedLines(word: char -> bool, lines: seq<string>): seq<string> {
    Texts(Process(word, OUTSIDE, lines))
  }

  function Fixed(word: char -> bool, content: string): string {
    Join(FixedLines(word, Split(content)))
  }

  // ----- the program

  method FixAwaitInSyncFunc(word: char -> bool, content: string) returns (fixed: string)
    ensures fixed == Fixed(word, content)
  {
    var lines := Split(content);
    var result: seq<string> := [];
    var inTest, added := false, false;
    hide Process, Emit, Next, Texts, Split;
    for i := 0 to |lines|
      invariant result + Texts(Process(word, Region(inTest, added), lines[i..])) == FixedLines(word, lines)
    {
      ProcessNext(word, Region(inTest, added), lines[i..]);
      assert lines[i..][1..] == lines[i + 1..];
      var added', inTest', out := FixLine(word, inTest, added, lines[i]);
      result, inTest, added := result + out, inTest', added';
    }
    ProcessEnd(word, Region(inTest, added), lines[|lines|..]);
    assert result + [] == result;
    fixed := Join(result);
  }

  /** One turn of the loop: the flags after it and the lines it appends. */
  method FixLine(word: char -> bool, inTest: bool, added: bool, line: string)
    returns (added': bool, inTest': bool, out: seq<string>)
    ensures Region(inTest', added') == Next(word, Region(inTest, added), line)
    ensures out == Texts(Emit(word, Region(inTest, added), line))
  {
    hide IsTestDef, IsClass, StartsWith, Contains, ReplaceFirst, RStrip, Strip, Lead;
    inTest', added', out := inTest, added, [];
    var stripped := Strip(line);
    if IsTestDef(word, stripped) {
      return false, true, [line];
    }
    if inTest && stripped != "" && !IsComment(stripped) {
      if StartsWith(stripped, "def ") || IsClass(word, stripped) {
        return false, false, [line];
      }
    }
    if inTest && Contains(line, AWAIT) && !added {
      out := out + [seq(|line| - |LStrip(line)|, _ => ' ') + IMPORT];
      added' := true;
    }
    if inTest && Contains(line, AWAIT) {
      out := out + [RStrip(ReplaceFirst(line, AWAIT, RUN)) + ")"];
      return;
    }
    out := out + [line];
  }

  lemma ProcessEnd(word: char -> bool, r: Region, lines: seq<string>)
    requires lines == []
    ensures Texts(Process(word, r, lines)) == []
  {
  }

  lemma ProcessNext(word: char -> bool, r: Region, lines: seq<string>)
    requires lines != []
    ensures Texts(Process(word, r, lines))
      == Texts(Emit(word, r, lines[0])) + Texts(Process(word, Next(word, r, lines[0]), lines[1..]))
  {
  }
}
