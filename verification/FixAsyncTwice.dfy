/** When the rewriter is idempotent: exactly when no rewritten line awaits a second time. */
module FixAsyncTwice {
  import opened Text
  import opened FixAsync
  import opened FixAsyncTheory

  // ----- characters

  /** `await ` sits at k. */
  ghost predicate AwaitAt(s: string, k: int) {
    && 0 <= k <= |s| - 6
    && s[k] == 'a' && s[k + 1] == 'w' && s[k + 2] == 'a' && s[k + 3] == 'i' && s[k + 4] == 't' && s[k + 5] == ' '
  }

  lemma AwaitChars(s: string, k: int)
    ensures OccursAt(s, AWAIT, k) <==> AwaitAt(s, k)
  {
    if 0 <= k <= |s| - 6 {
      var t := s[k..k + 6];
      assert t[0] == s[k] && t[1] == s[k + 1] && t[2] == s[k + 2];
      assert t[3] == s[k + 3] && t[4] == s[k + 4] && t[5] == s[k + 5];
    }
  }

  /** `asyncio.run(` sits at i. */
  ghost predicate RunAt(t: string, i: nat) {
    && i + 12 <= |t|
    && t[i] == 'a' && t[i + 1] == 's' && t[i + 2] == 'y' && t[i + 3] == 'n' && t[i + 4] == 'c' && t[i + 5] == 'i'
    && t[i + 6] == 'o' && t[i + 7] == '.' && t[i + 8] == 'r' && t[i + 9] == 'u' && t[i + 10] == 'n' && t[i + 11] == '('
  }

  lemma RunChars(a: string, b: string)
    ensures RunAt(a + RUN + b, |a|)
    ensures forall k :: 0 <= k < |a| ==> (a + RUN + b)[k] == a[k]
    ensures forall k :: 0 <= k < |b| ==> (a + RUN + b)[|a| + 12 + k] == b[k]
  {
    var t := a + RUN + b;
    assert forall k :: 0 <= k < 12 ==> t[|a| + k] == RUN[k];
  }

  // ----- leading and trailing spaces are determined by what they leave

  /** Stripping keeps everything from the first to beyond the last non-space. */
  lemma StripKeeps(s: string, i: nat)
    requires i < |s| && !IsSpace(s[i])
    ensures Lead(s) <= i && |Strip(s)| > i - Lead(s)
    ensures forall k :: 0 <= k <= i - Lead(s) ==> Strip(s)[k] == s[Lead(s) + k]
  {
    hide Lead, Trail, IsSpace;
    var t := LStrip(s);
    assert t[i - Lead(s)] == s[i];
  }

  // ----- the shape of a rewritten line

  /** What follows the first `await `, without trailing spaces. */
  function Rest(line: string): string
    requires Contains(line, AWAIT)
  {
    RStrip(line[Find(line, AWAIT) + 6..])
  }

  lemma RewriteIs(line: string)
    requires Contains(line, AWAIT)
    ensures Rewrite(line) == line[..Find(line, AWAIT)] + RUN + (Rest(line) + ")")
  {
    hide Find, Trail;
    var i := Find(line, AWAIT);
    var a, b := line[..i] + RUN, line[i + 6..];
    RunChars(line[..i], "");
    assert line[..i] + RUN + "" == a;
    TrailOfConcat(a, b);
    assert ReplaceFirst(line, AWAIT, RUN) == a + b;
    assert a + RStrip(b) + ")" == line[..i] + RUN + (RStrip(b) + ")");
  }

  /** A line and its rewrite agree before the first `await `; there the rewrite has `asyncio.run(`. */
  lemma RewriteChars(line: string)
    requires Contains(line, AWAIT)
    ensures var i, out := Find(line, AWAIT), Rewrite(line);
      && i >= 0 && AwaitAt(line, i) && RunAt(out, i)
      && |out| == i + 12 + |Rest(line)| + 1
      && (forall k :: 0 <= k < i ==> out[k] == line[k])
      && (forall k :: 0 <= k < |Rest(line)| ==> out[i + 12 + k] == Rest(line)[k])
      && out[|out| - 1] == ')'
  {
    hide Find, Rewrite, Rest;
    RewriteIs(line);
    RunChars(line[..Find(line, AWAIT)], Rest(line) + ")");
    var i, out, tail := Find(line, AWAIT), Rewrite(line), Rest(line) + ")";
    forall k | 0 <= k < |Rest(line)|
      ensures out[i + 12 + k] == Rest(line)[k]
    {
      assert out[i + 12 + k] == tail[k];
    }
    assert out[i + 12 + |Rest(line)|] == tail[|Rest(line)|];
    AwaitChars(line, i);
  }

  /** The same, after stripping both. */
  lemma RewriteShape(line: string) returns (p: nat)
    requires Contains(line, AWAIT)
    ensures var s, t := Strip(line), Strip(Rewrite(line));
      && |s| > p && s[p] == 'a' && RunAt(t, p)
      && forall k :: 0 <= k <= p ==> s[k] == t[k]
  {
    var i, out := Find(line, AWAIT), Rewrite(line);
    RewriteChars(line);
    hide *;
    FirstChars(line, out, i);
    p := StripBoth(line, out, i);
  }

  lemma FirstChars(line: string, out: string, i: nat)
    requires AwaitAt(line, i) && RunAt(out, i)
    ensures i < |line| && i + 12 <= |out| && line[i] == out[i] == 'a' && out[i + 11] == '('
  {
  }

  lemma StripBoth(line: string, out: string, i: nat) returns (p: nat)
    requires i < |line| && i + 12 <= |out| && RunAt(out, i) && line[i] == out[i] == 'a' && out[i + 11] == '('
    requires forall k :: 0 <= k < i ==> out[k] == line[k]
    ensures var s, t := Strip(line), Strip(out);
      && |s| > p && s[p] == 'a' && RunAt(t, p)
      && forall k :: 0 <= k <= p ==> s[k] == t[k]
  {
    NotSpaces();
    hide *;
    LeadBounds(line, i);
    forall k | 0 <= k < Lead(line)
      ensures IsSpace(out[k])
    {
      assert out[k] == line[k];
    }
    LeadIs(out, Lead(line));
    p := i - Lead(line);
    StripKeeps(line, i);
    StripKeeps(out, i + 11);
    var s, t := Strip(line), Strip(out);
    RunShift(out, t, i, p);
    forall k | 0 <= k <= p
      ensures s[k] == t[k]
    {
      assert out[Lead(line) + k] == line[Lead(line) + k];
    }
  }

  lemma LeadBounds(line: string, i: nat)
    requires i < |line| && !IsSpace(line[i])
    ensures Lead(line) <= i && !IsSpace(line[Lead(line)])
    ensures forall k :: 0 <= k < Lead(line) ==> IsSpace(line[k])
  {
    hide Lead, IsSpace;
  }

  lemma RunShift(out: string, t: string, i: nat, p: nat)
    requires p <= i && p + 12 <= |t| && RunAt(out, i)
    requires forall k :: 0 <= k < p + 12 ==> t[k] == out[i - p + k]
    ensures RunAt(t, p)
  {
  }

  lemma NotSpaces()
    ensures !IsSpace('a') && !IsSpace('(') && !IsSpace('i') && !IsSpace('o') && !IsSpace('t') && !IsSpace(')')
  {
  }

  // ----- the kind of the emitted lines

  lemma StartChars(s: string)
    ensures StartsWith(s, "def ") <==> |s| >= 4 && s[0] == 'd' && s[1] == 'e' && s[2] == 'f' && s[3] == ' '
    ensures StartsWith(s, "class ") <==>
      (|s| >= 6 && s[0] == 'c' && s[1] == 'l' && s[2] == 'a' && s[3] == 's' && s[4] == 's' && s[5] == ' ')
    ensures StartsWith(s, "def test_") ==> StartsWith(s, "def ")
    ensures IsComment(s) ==> s[0] == '#' || s[0] == '"' || s[0] == '\''
  {
    if |s| >= 4 {
      assert s[..4][0] == s[0] && s[..4][1] == s[1] && s[..4][2] == s[2] && s[..4][3] == s[3];
    }
    if |s| >= 6 {
      assert s[..6][0] == s[0] && s[..6][1] == s[1] && s[..6][2] == s[2] && s[..6][3] == s[3] && s[..6][4] == s[4]
        && s[..6][5] == s[5];
    }
    if |s| >= 9 {
      var t := s[..9];
      assert t[0] == s[0] && t[1] == s[1] && t[2] == s[2] && t[3] == s[3];
    }
    if |s| >= 3 {
      assert s[..3][0] == s[0] && s[..1][0] == s[0];
    } else if |s| >= 1 {
      assert s[..1][0] == s[0];
    }
  }

  /** Up to p the strings agree; from p the second has `asyncio.run(`. Neither pattern can cross p. */
  lemma SameStart(word: char -> bool, s: string, t: string, p: nat)
    requires |s| > p && s[p] == 'a' && RunAt(t, p) && forall k :: 0 <= k <= p ==> s[k] == t[k]
    ensures StartsWith(t, "def ") ==> StartsWith(s, "def ")
    ensures IsClass(word, t) ==> IsClass(word, s)
  {
    StartChars(s);
    StartChars(t);
  }

  lemma PlainStarts(word: char -> bool, s: string)
    ensures StartsWith(s, "def ") || IsClass(word, s) ==> s != "" && !IsComment(s)
    ensures IsTestDef(word, s) ==> StartsWith(s, "def ")
  {
    StartChars(s);
  }

  /** Rewriting never turns a line into one that opens or closes a test. */
  lemma RewriteIsPlain(word: char -> bool, line: string)
    requires KindOf(word, line) == Plain && Contains(line, AWAIT)
    ensures KindOf(word, Rewrite(line)) == Plain
  {
    var p := RewriteShape(line);
    var s, t := Strip(line), Strip(Rewrite(line));
    SameStart(word, s, t, p);
    PlainStarts(word, s);
    PlainStarts(word, t);
    hide Strip, Rewrite, StartsWith, IsClass, IsTestDef, IsComment, Contains;
  }

  lemma ImportIsPlain(word: char -> bool, line: string)
    ensures KindOf(word, ImportLine(line)) == Plain && !Contains(ImportLine(line), AWAIT)
  {
    var n, t := Lead(line), ImportLine(line);
    ImportChars(line);
    NotSpaces();
    assert IsSpace(' ');
    ImportNeverAwaits(line);
    hide Lead, Strip, IsSpace, Contains, ImportLine;
    LeadIs(t, n);
    StripKeeps(t, n);
    assert Strip(t)[0] == 'i';
    StartChars(Strip(t));
    PlainStarts(word, Strip(t));
  }

  lemma ImportNeverAwaits(line: string)
    ensures !Contains(ImportLine(line), AWAIT)
  {
    var t := ImportLine(line);
    ImportChars(line);
    ContainsIff(t);
    hide Contains, OccursAt, Lead, ImportLine;
    forall k: int
      ensures !OccursAt(t, AWAIT, k)
    {
      AwaitChars(t, k);
    }
  }

  lemma ImportChars(line: string)
    ensures var n, t := Lead(line), ImportLine(line);
      && |t| == n + 14 && (forall k :: 0 <= k < n ==> t[k] == ' ')
      && t[n] == 'i' && t[n + 1] == 'm' && t[n + 2] == 'p' && t[n + 3] == 'o' && t[n + 4] == 'r' && t[n + 5] == 't'
      && t[n + 6] == ' ' && t[n + 7] == 'a' && t[n + 8] == 's' && t[n + 9] == 'y' && t[n + 10] == 'n'
      && t[n + 11] == 'c' && t[n + 12] == 'i' && t[n + 13] == 'o'
  {
    hide Lead;
    var n, t := Lead(line), ImportLine(line);
    assert t[n..] == IMPORT;
    ImportLiteral(t[n..]);
    hide *;
    assert t[n] == t[n..][0] && forall k :: 0 <= k < 14 ==> t[n + k] == t[n..][k];
  }

  lemma ImportLiteral(s: string)
    requires s == IMPORT
    ensures |s| == 14
    ensures s[0] == 'i' && s[1] == 'm' && s[2] == 'p' && s[3] == 'o' && s[4] == 'r' && s[5] == 't' && s[6] == ' '
    ensures s[7] == 'a' && s[8] == 's' && s[9] == 'y' && s[10] == 'n' && s[11] == 'c' && s[12] == 'i' && s[13] == 'o'
  {
  }

  /** The only `await ` a rewritten line can hold is one that followed the first. */
  lemma SecondAwait(line: string)
    requires Contains(line, AWAIT)
    ensures Contains(Rewrite(line), AWAIT) <==> Contains(Rest(line), AWAIT)
  {
    hide *;
    var i, rest, out := Find(line, AWAIT), Rest(line), Rewrite(line);
    RewriteChars(line);
    FoundInside(line);
    forall k: int
      ensures OccursAt(out, AWAIT, k) <==> k >= i + 12 && OccursAt(rest, AWAIT, k - i - 12)
    {
      AwaitMoves(line, rest, out, i, k);
    }
    ContainsIff(out);
    ContainsIff(rest);
    if k :| OccursAt(rest, AWAIT, k) {
      OccursInside(rest, k);
      assert k + i + 12 - i - 12 == k;
      assert OccursAt(out, AWAIT, k + i + 12);
    }
  }

  lemma OccursInside(s: string, k: int)
    requires OccursAt(s, AWAIT, k)
    ensures 0 <= k <= |s|
  {
  }

  lemma FoundInside(s: string)
    requires Contains(s, AWAIT)
    ensures 0 <= Find(s, AWAIT) <= |s|
  {
    hide Find;
  }

  lemma ContainsIff(s: string)
    ensures Contains(s, AWAIT) <==> exists k :: OccursAt(s, AWAIT, k)
  {
    hide OccursAt;
    AwaitChars(s, Find(s, AWAIT));
    forall k | OccursAt(s, AWAIT, k)
      ensures k >= 0
    {
      AwaitChars(s, k);
    }
  }

  lemma AwaitMoves(line: string, rest: string, out: string, i: nat, k: int)
    requires i == Find(line, AWAIT) && i <= |line| && RunAt(out, i) && |out| == i + 12 + |rest| + 1
    requires forall k :: 0 <= k < i ==> out[k] == line[k]
    requires forall k :: 0 <= k < |rest| ==> out[i + 12 + k] == rest[k]
    requires out[|out| - 1] == ')'
    ensures OccursAt(out, AWAIT, k) <==> k >= i + 12 && OccursAt(rest, AWAIT, k - i - 12)
  {
    hide *;
    AwaitChars(out, k);
    AwaitChars(rest, k - i - 12);
    AwaitChars(line, k);
    if k < 0 {
      AwaitNegative(out, k);
    } else if k < i {
      assert !OccursAt(line, AWAIT, k);
      AwaitBefore(line, out, i, k);
    } else if k < i + 12 {
      AwaitAcross(out, i, k);
    } else {
      AwaitAfter(rest, out, i + 12, k);
    }
  }

  lemma AwaitNegative(out: string, k: int)
    ensures k < 0 ==> !AwaitAt(out, k)
  {
  }

  lemma AwaitAcross(out: string, i: nat, k: int)
    requires RunAt(out, i) && i <= k < i + 12
    ensures !AwaitAt(out, k)
  {
  }

  lemma AwaitBefore(line: string, out: string, i: nat, k: int)
    requires i <= |line| && RunAt(out, i) && k < i && !AwaitAt(line, k)
    requires forall k :: 0 <= k < i ==> out[k] == line[k]
    ensures !AwaitAt(out, k)
  {
  }

  lemma AwaitAfter(rest: string, out: string, i: nat, k: int)
    requires |out| == i + |rest| + 1 && k >= i && out[|out| - 1] == ')'
    requires forall k :: 0 <= k < |rest| ==> out[i + k] == rest[k]
    ensures AwaitAt(out, k) <==> AwaitAt(rest, k - i)
  {
    assert forall j :: 0 <= j < |rest| ==> rest[j] == out[i + j];
  }

  // ----- the second run

  /** No rewritten line still awaits. */
  ghost predicate Quiet(outs: seq<Out>) {
    forall k :: 0 <= k < |outs| && outs[k].Rewritten? ==> !Contains(outs[k].text, AWAIT)
  }

  predicate Acts(word: char -> bool, q: Region, line: string) {
    q.inTest && KindOf(word, line) == Plain && Contains(line, AWAIT)
  }

  lemma ProcessCons(word: char -> bool, q: Region, line: string, rest: seq<string>)
    ensures Process(word, q, [line] + rest) == Emit(word, q, line) + Process(word, Next(word, q, line), rest)
    ensures !Acts(word, q, line) ==> Emit(word, q, line) == [Kept(line)]
    ensures KindOf(word, line) == Plain && !Contains(line, AWAIT) ==> Next(word, q, line) == q
    ensures Process(word, q, []) == []
  {
    hide KindOf, Contains, Rewrite, ImportLine;
    assert ([line] + rest)[1..] == rest;
  }

  lemma TextsAppend(a: seq<Out>, b: seq<Out>)
    ensures Texts(a + b) == Texts(a) + Texts(b)
    ensures |a| == 1 ==> Texts(a) == [a[0].text]
    ensures |a| == 2 ==> Texts(a) == [a[0].text, a[1].text]
  {
  }

  /** Every emitted line is plain or the untouched input line; the flags of both runs stay in step. */
  lemma EmitCases(word: char -> bool, r: Region, line: string)
    ensures var out := Emit(word, r, line);
      if !Acts(word, r, line) then out == [Kept(line)]
      else
        && (out == [Rewritten(Rewrite(line))] || out == [Import(ImportLine(line)), Rewritten(Rewrite(line))])
        && Next(word, r, line).inTest
        && KindOf(word, Rewrite(line)) == Plain
        && KindOf(word, ImportLine(line)) == Plain && !Contains(ImportLine(line), AWAIT)
  {
    if Acts(word, r, line) {
      RewriteIsPlain(word, line);
      ImportIsPlain(word, line);
    }
    hide KindOf, Contains, Rewrite, ImportLine;
  }

  lemma InStep(word: char -> bool, r: Region, q: Region, line: string)
    requires r.inTest == q.inTest
    ensures Acts(word, r, line) == Acts(word, q, line)
    ensures !Acts(word, r, line) ==> Next(word, r, line).inTest == Next(word, q, line).inTest
    ensures !Acts(word, q, line) && !q.added ==> !Next(word, q, line).added
  {
    hide KindOf, Contains;
  }

  lemma QuietParts(a: seq<Out>, b: seq<Out>)
    ensures Quiet(a + b) <==> Quiet(a) && Quiet(b)
  {
    hide Contains;
    if Quiet(a + b) {
      assert forall k :: 0 <= k < |a| ==> a[k] == (a + b)[k];
      assert forall k :: 0 <= k < |b| ==> b[k] == (a + b)[|a| + k];
    }
  }

  lemma QuietLast(out: seq<Out>)
    requires out != [] && (|out| == 1 || (|out| == 2 && out[0].Import?))
    ensures Quiet(out) <==> !out[|out| - 1].Rewritten? || !Contains(out[|out| - 1].text, AWAIT)
  {
    hide Contains;
  }

  /** A quiet output passes through a second run unchanged. */
  lemma {:induction false} QuietIsStable(word: char -> bool, r: Region, q: Region, lines: seq<string>)
    requires r.inTest == q.inTest && Quiet(Process(word, r, lines))
    ensures var texts := Texts(Process(word, r, lines)); Texts(Process(word, q, texts)) == texts
    decreases |lines|
  {
    hide *;
    if lines == [] {
      ProcessCons(word, r, "", []);
      ProcessCons(word, q, "", []);
      TextsAppend([], []);
      assert Texts([]) == [];
    } else {
      var line, rest := lines[0], lines[1..];
      assert lines == [line] + rest;
      ProcessCons(word, r, line, rest);
      var out, r', after := Emit(word, r, line), Next(word, r, line), Process(word, Next(word, r, line), rest);
      QuietParts(out, after);
      TextsAppend(out, after);
      EmitCases(word, r, line);
      InStep(word, r, q, line);
      if !Acts(word, r, line) {
        QuietIsStable(word, r', Next(word, q, line), rest);
        ProcessCons(word, q, line, Texts(after));
        TextsAppend([Kept(line)], Process(word, Next(word, q, line), Texts(after)));
      } else {
        QuietLast(out);
        PassInert(word, q, Rewrite(line), Texts(after));
        ActsInside(word, r, line);
        QuietIsStable(word, r', q, rest);
        if |out| == 2 {
          PassInert(word, q, ImportLine(line), [Rewrite(line)] + Texts(after));
          assert [ImportLine(line), Rewrite(line)] + Texts(after)
            == [ImportLine(line)] + ([Rewrite(line)] + Texts(after));
        }
      }
    }
  }

  lemma ActsInside(word: char -> bool, r: Region, line: string)
    ensures Acts(word, r, line) ==> r.inTest
  {
  }

  /** A plain line without `await ` is kept, and the flags stay. */
  lemma PassInert(word: char -> bool, q: Region, line: string, rest: seq<string>)
    requires KindOf(word, line) == Plain && !Contains(line, AWAIT)
    ensures Process(word, q, [line] + rest) == [Kept(line)] + Process(word, q, rest)
    ensures Texts(Process(word, q, [line] + rest)) == [line] + Texts(Process(word, q, rest))
  {
    hide KindOf, Contains, Process, Emit, Next;
    ProcessCons(word, q, line, rest);
    TextsAppend([Kept(line)], Process(word, q, rest));
  }

  lemma {:induction false} NeverShrinks(word: char -> bool, q: Region, lines: seq<string>)
    ensures |Process(word, q, lines)| >= |lines|
    decreases |lines|
  {
    hide KindOf, Contains, Rewrite, ImportLine;
    if lines != [] {
      NeverShrinks(word, Next(word, q, lines[0]), lines[1..]);
    }
  }

  /** A noisy output grows in a second run: the first noisy line gets another import. */
  lemma {:induction false} NoisyGrows(word: char -> bool, r: Region, q: Region, lines: seq<string>)
    requires r.inTest == q.inTest && !q.added && !Quiet(Process(word, r, lines))
    ensures var texts := Texts(Process(word, r, lines)); |Process(word, q, texts)| > |texts|
    decreases |lines|
  {
    hide *;
    if lines == [] {
      ProcessCons(word, r, "", []);
      EmptyIsQuiet();
    } else {
      var line, rest := lines[0], lines[1..];
      assert lines == [line] + rest;
      ProcessCons(word, r, line, rest);
      var out, r', after := Emit(word, r, line), Next(word, r, line), Process(word, Next(word, r, line), rest);
      QuietParts(out, after);
      TextsAppend(out, after);
      EmitCases(word, r, line);
      InStep(word, r, q, line);
      QuietLast(out);
      if !Acts(word, r, line) {
        NoisyGrows(word, r', Next(word, q, line), rest);
        ProcessCons(word, q, line, Texts(after));
      } else {
        ActsInside(word, r, line);
        if Contains(Rewrite(line), AWAIT) {
          NoisyLine(word, q, Rewrite(line), Texts(after));
        } else {
          PassInert(word, q, Rewrite(line), Texts(after));
          NoisyGrows(word, r', q, rest);
        }
        if |out| == 2 {
          PassInert(word, q, ImportLine(line), [Rewrite(line)] + Texts(after));
          assert [ImportLine(line), Rewrite(line)] + Texts(after)
            == [ImportLine(line)] + ([Rewrite(line)] + Texts(after));
        }
      }
    }
  }

  lemma EmptyIsQuiet()
    ensures Quiet([])
  {
  }

  lemma NoisyLine(word: char -> bool, q: Region, line: string, rest: seq<string>)
    requires q.inTest && !q.added && KindOf(word, line) == Plain && Contains(line, AWAIT)
    ensures |Process(word, q, [line] + rest)| > |[line] + rest|
  {
    hide KindOf, Contains, Process, Rewrite, ImportLine;
    ProcessCons(word, q, line, rest);
    NeverShrinks(word, Next(word, q, line), rest);
  }

  // ----- the exact condition

  /** Line i is rewritten and its remainder, right-stripped, awaits again. */
  ghost predicate AwaitsTwice(word: char -> bool, lines: seq<string>, i: int) {
    && 0 <= i < |lines|
    && Covered(word, lines, i) && Contains(lines[i], AWAIT)
    && Contains(Rest(lines[i]), AWAIT)
  }

  lemma {:induction false} QuietPieces(word: char -> bool, lines: seq<string>, n: nat)
    requires n <= |lines|
    ensures Quiet(Pieces(word, lines, n)) <==> forall i :: 0 <= i < n ==> !AwaitsTwice(word, lines, i)
  {
    hide *;
    if n == 0 {
      PiecesStep(word, lines, n);
      NoPieces(word, lines);
    } else {
      QuietPieces(word, lines, n - 1);
      PiecesStep(word, lines, n);
      QuietParts(Pieces(word, lines, n - 1), Piece(word, lines, n - 1));
      QuietPiece(word, lines, n - 1);
    }
  }

  lemma NoPieces(word: char -> bool, lines: seq<string>)
    ensures Quiet(Pieces(word, lines, 0))
  {
  }

  lemma QuietPiece(word: char -> bool, lines: seq<string>, i: nat)
    requires i < |lines|
    ensures Quiet(Piece(word, lines, i)) <==> !AwaitsTwice(word, lines, i)
  {
    if Contains(lines[i], AWAIT) {
      SecondAwait(lines[i]);
    }
    QuietLast(Piece(word, lines, i));
    hide KindOf, Contains, Rewrite, Rest, ImportLine, Covered, FirstAwait, Quiet;
  }

  lemma NoNewlines(word: char -> bool, r: Region, lines: seq<string>)
    requires forall i :: 0 <= i < |lines| ==> NEWLINE !in lines[i]
    ensures forall i :: 0 <= i < |Process(word, r, lines)| ==> NEWLINE !in Process(word, r, lines)[i].text
    decreases |lines|
  {
    hide KindOf, Contains, Rewrite, ImportLine;
    if lines != [] {
      NoNewlines(word, Next(word, r, lines[0]), lines[1..]);
      LineHasNoNewline(lines[0]);
    }
  }

  lemma LineHasNoNewline(line: string)
    requires NEWLINE !in line
    ensures NEWLINE !in ImportLine(line)
    ensures Contains(line, AWAIT) ==> NEWLINE !in Rewrite(line)
  {
    ImportHasNoNewline(line);
    if Contains(line, AWAIT) {
      RewriteHasNoNewline(line);
    }
  }

  lemma ImportHasNoNewline(line: string)
    ensures NEWLINE !in ImportLine(line)
  {
    ImportChars(line);
    hide ImportLine, Lead;
  }

  lemma RewriteHasNoNewline(line: string)
    requires NEWLINE !in line && Contains(line, AWAIT)
    ensures NEWLINE !in Rewrite(line)
  {
    RewriteIs(line);
    hide Rewrite, Find, Contains, Trail;
  }

  /** Running the rewriter twice equals running it once iff no rewritten line has a second `await ` left. */
  lemma FixingTwiceIff(word: char -> bool, content: string)
    ensures Fixed(word, Fixed(word, content)) == Fixed(word, content)
      <==> forall i :: !AwaitsTwice(word, Split(content), i)
  {
    hide *;
    var lines := Split(content);
    var outs := Process(word, OUTSIDE, lines);
    OutputLines(word, lines);
    FixedIs(word, content);
    FixedIs(word, Fixed(word, content));
    OutputLines(word, Texts(outs));
    JoinInjective(Texts(outs), Texts(Process(word, OUTSIDE, Texts(outs))));
    ProcessIsPieces(word, lines);
    QuietPieces(word, lines, |lines|);
    OutOfRange(word, lines);
    OutsideIsClear();
    if Quiet(outs) {
      QuietIsStable(word, OUTSIDE, OUTSIDE, lines);
    } else {
      NoisyGrows(word, OUTSIDE, OUTSIDE, lines);
    }
  }

  lemma OutsideIsClear()
    ensures !OUTSIDE.inTest && !OUTSIDE.added
  {
  }

  lemma FixedIs(word: char -> bool, content: string)
    ensures Fixed(word, content) == Join(Texts(Process(word, OUTSIDE, Split(content))))
  {
  }

  lemma OutputLines(word: char -> bool, lines: seq<string>)
    requires |lines| >= 1 && forall i :: 0 <= i < |lines| ==> NEWLINE !in lines[i]
    ensures var texts := Texts(Process(word, OUTSIDE, lines));
      |texts| >= 1 && (forall i :: 0 <= i < |texts| ==> NEWLINE !in texts[i]) && Split(Join(texts)) == texts
  {
    hide Process, Split, Join;
    NoNewlines(word, OUTSIDE, lines);
    NeverShrinks(word, OUTSIDE, lines);
    SplitOfJoin(Texts(Process(word, OUTSIDE, lines)));
  }

  lemma JoinInjective(a: seq<string>, b: seq<string>)
    requires Split(Join(a)) == a && Split(Join(b)) == b
    ensures Join(a) == Join(b) <==> a == b
  {
  }

  lemma OutOfRange(word: char -> bool, lines: seq<string>)
    ensures forall i :: AwaitsTwice(word, lines, i) ==> 0 <= i < |lines|
  {
    hide Covered, Contains, Rest;
  }

  lemma StripId(s: string)
    requires s != "" && !IsSpace(s[0]) && !IsSpace(s[|s| - 1])
    ensures Strip(s) == s
  {
    hide IsSpace;
    LeadIs(s, 0);
    assert s[0..] == s;
    TrailIs(s, |s|);
  }

  /** A nested `await` inside a test is such a line: the second run changes the file again. */
  lemma NestedAwaitIsNotStable(word: char -> bool)
    requires word('x')
    ensures var content := Join(["def test_x(self):", "await a(await b())"]);
      Fixed(word, Fixed(word, content)) != Fixed(word, content)
  {
    var header, line := "def test_x(self):", "await a(await b())";
    var lines := [header, line];
    SplitOfJoin(lines);
    HeaderKind(word);
    NestedLine(word);
    hide *;
    FixingTwiceIff(word, Join(lines));
    TwoLines(word, header, line);
  }

  lemma TwoLines(word: char -> bool, header: string, line: string)
    requires KindOf(word, header) == Header && KindOf(word, line) == Plain
    requires Contains(line, AWAIT) && Contains(Rest(line), AWAIT)
    ensures AwaitsTwice(word, [header, line], 1)
  {
    hide KindOf, Contains, Rest;
    assert InTestOf(word, [header, line], 0, 1);
  }

  lemma HeaderKind(word: char -> bool)
    requires word('x')
    ensures KindOf(word, "def test_x(self):") == Header
  {
    var h := "def test_x(self):";
    assert !IsSpace('d') && !IsSpace(':');
    hide IsSpace, Strip;
    StripId(h);
    assert h[..9] == "def test_";
    assert h[10..] == "(self):" && h[10..][..7] == h[10..];
    assert h[9] == 'x';
    assert StartsWith(h[10..], "(self):");
    assert 9 < 10 <= |h| && forall j | 9 <= j < 10 :: word(h[j]);
  }

  lemma NestedLine(word: char -> bool)
    ensures var line := "await a(await b())";
      KindOf(word, line) == Plain && Contains(line, AWAIT) && Contains(Rest(line), AWAIT)
  {
    hide *;
    var line, rest := "await a(await b())", "a(await b())";
    NestedLiteral();
    NotSpaces();
    RestOf(line, rest);
    RestAwaits(rest);
    PlainLine(word, line);
  }

  lemma NestedLiteral()
    ensures "await a(await b())" == AWAIT + "a(await b())"
  {
  }

  lemma RestAwaits(rest: string)
    requires |rest| > 8 && rest[2] == 'a' && rest[3] == 'w' && rest[4] == 'a'
    requires rest[5] == 'i' && rest[6] == 't' && rest[7] == ' '
    ensures Contains(rest, AWAIT)
  {
    AwaitChars(rest, 2);
    ContainsIff(rest);
    hide Contains, OccursAt;
  }

  lemma PlainLine(word: char -> bool, line: string)
    requires |line| > 0 && line[0] == 'a' && line[|line| - 1] == ')'
    ensures KindOf(word, line) == Plain
  {
    NotSpaces();
    StripId(line);
    StartChars(line);
    PlainStarts(word, line);
    hide Strip, StartsWith, IsTestDef, IsComment;
  }

  lemma RestOf(line: string, rest: string)
    requires line == AWAIT + rest && rest != "" && !IsSpace(rest[|rest| - 1])
    ensures Contains(line, AWAIT) && Rest(line) == rest
  {
    hide IsSpace, Find, Trail;
    assert line[0..6] == AWAIT;
    assert OccursAt(line, AWAIT, 0);
    assert Find(line, AWAIT) == 0;
    assert line[6..] == rest;
    TrailIs(rest, |rest|);
  }
}
