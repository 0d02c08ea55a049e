/** The string operations of Python the models need: strip, find, replace once, split and join. */
module Text {

  /** The characters `str.strip()` removes. */
  predicate IsSpace(c: char) {
    var n := c as int;
    (9 <= n <= 13) || (28 <= n <= 32) || n == 0x85 || n == 0xA0 || n == 0x1680 || (0x2000 <= n <= 0x200A)
    || n == 0x2028 || n == 0x2029 || n == 0x202F || n == 0x205F || n == 0x3000
  }

  /** Number of leading spaces. */
  function Lead(s: string): (n: nat)
    ensures n <= |s|
    ensures forall k :: 0 <= k < n ==> IsSpace(s[k])
    ensures n < |s| ==> !IsSpace(s[n])
  {
    if s != "" && IsSpace(s[0]) then 1 + Lead(s[1..]) else 0
  }

  /** Length without trailing spaces. */
  function Trail(s: string): (n: nat)
    ensures n <= |s|
    ensures forall k :: n <= k < |s| ==> IsSpace(s[k])
    ensures n > 0 ==> !IsSpace(s[n - 1])
  {
    if s != "" && IsSpace(s[|s| - 1]) then Trail(s[..|s| - 1]) else |s|
  }

  function LStrip(s: string): string { s[Lead(s)..] }
  function RStrip(s: string): string { s[..Trail(s)] }
  function Strip(s: string): string { RStrip(LStrip(s)) }

  lemma LeadIs(t: string, n: nat)
    requires n < |t| && !IsSpace(t[n]) && forall k :: 0 <= k < n ==> IsSpace(t[k])
    ensures Lead(t) == n
  {
    hide Lead;
  }

  lemma TrailIs(t: string, n: nat)
    requires 0 < n <= |t| && !IsSpace(t[n - 1]) && forall k :: n <= k < |t| ==> IsSpace(t[k])
    ensures Trail(t) == n
  {
    hide Trail;
  }

  lemma TrailOfConcat(a: string, b: string)
    requires a != "" && !IsSpace(a[|a| - 1])
    ensures Trail(a + b) == |a| + Trail(b)
    ensures RStrip(a + b) == a + RStrip(b)
  {
    hide Trail, IsSpace;
    var t, u := a + b, |a| + Trail(b);
    assert forall k :: 0 <= k < |b| ==> t[|a| + k] == b[k];
    assert t[u - 1] == if Trail(b) > 0 then b[Trail(b) - 1] else a[|a| - 1];
    forall k | u <= k < |t|
      ensures IsSpace(t[k])
    {
      assert t[k] == b[k - |a|];
    }
    TrailIs(t, u);
  }

  /** Only the spaces outside a core that starts and ends with a non-space go. */
  lemma StripAround(pre: string, core: string, post: string)
    requires core != "" && !IsSpace(core[0]) && !IsSpace(core[|core| - 1])
    ensures Strip(pre + core + post) == LStrip(pre) + core + RStrip(post)
  {
    hide Lead, Trail, IsSpace;
    var s, n := pre + core + post, Lead(pre);
    var first := if n < |pre| then n else |pre|;
    assert forall k :: 0 <= k < |pre| ==> s[k] == pre[k];
    assert s[|pre|] == core[0];
    LeadIs(s, first);
    var a := LStrip(pre) + core;
    assert LStrip(s) == a + post;
    assert a[|a| - 1] == core[|core| - 1];
    TrailOfConcat(a, post);
  }

  predicate StartsWith(s: string, p: string) {
    |p| <= |s| && s[..|p|] == p
  }

  predicate OccursAt(s: string, p: string, i: int) {
    0 <= i <= |s| - |p| && s[i..i + |p|] == p
  }

  lemma OccursLater(s: string, p: string)
    requires s != ""
    ensures forall k :: 1 <= k ==> (OccursAt(s, p, k) <==> OccursAt(s[1..], p, k - 1))
  {
    forall k: int | 1 <= k
      ensures OccursAt(s, p, k) <==> OccursAt(s[1..], p, k - 1)
    {
      if k <= |s| - |p| {
        var a, b := s[k..k + |p|], s[1..][k - 1..k - 1 + |p|];
        assert |a| == |b| && forall j :: 0 <= j < |p| ==> a[j] == b[j];
      }
    }
  }

  /** `s.find(p)`: the first occurrence, or -1. */
  function Find(s: string, p: string): (i: int)
    ensures i == -1 || OccursAt(s, p, i)
    ensures forall k :: 0 <= k && (i == -1 || k < i) ==> !OccursAt(s, p, k)
  {
    if |s| < |p| then -1
    else if s[..|p|] == p then 0
    else if s == "" then -1
    else
      var r := Find(s[1..], p);
      OccursLater(s, p);
      if r == -1 then -1 else r + 1
  }

  predicate Contains(s: string, p: string) { Find(s, p) != -1 }

  /** `s.replace(p, q, 1)`. */
  function ReplaceFirst(s: string, p: string, q: string): string {
    var i := Find(s, p);
    if i == -1 then s else s[..i] + q + s[i + |p|..]
  }

  // ----- lines

  const NEWLINE := '\n'

  /** `s.split('\n')`. */
  function Split(s: string): (lines: seq<string>)
    ensures |lines| >= 1
    ensures forall i :: 0 <= i < |lines| ==> NEWLINE !in lines[i]
  {
    if s == "" then [""]
    else
      var rest := Split(s[1..]);
      if s[0] == NEWLINE then [""] + rest else [[s[0]] + rest[0]] + rest[1..]
  }

  /** `'\n'.join(lines)`. */
  function Join(lines: seq<string>): string {
    if |lines| == 0 then ""
    else if |lines| == 1 then lines[0]
    else lines[0] + [NEWLINE] + Join(lines[1..])
  }

  lemma {:induction false} SplitLine(line: string)
    requires NEWLINE !in line
    ensures Split(line) == [line]
  {
    if line != "" {
      SplitLine(line[1..]);
      assert [line[0]] + line[1..] == line;
      assert Split(line[1..])[1..] == [];
    }
  }

  lemma {:induction false} SplitFirst(line: string, rest: string)
    requires NEWLINE !in line
    ensures Split(line + [NEWLINE] + rest) == [line] + Split(rest)
  {
    var s := line + [NEWLINE] + rest;
    if line == "" {
      assert s[1..] == rest;
    } else {
      SplitFirst(line[1..], rest);
      assert s[1..] == line[1..] + [NEWLINE] + rest;
      assert [line[0]] + line[1..] == line;
      assert Split(s[1..])[1..] == Split(rest);
    }
  }

  /** Splitting what was joined from newline-free lines gives the lines back. */
  lemma {:induction false} SplitOfJoin(lines: seq<string>)
    requires |lines| >= 1 && forall i :: 0 <= i < |lines| ==> NEWLINE !in lines[i]
    ensures Split(Join(lines)) == lines
  {
    if |lines| == 1 {
      SplitLine(lines[0]);
    } else {
      SplitOfJoin(lines[1..]);
      SplitFirst(lines[0], Join(lines[1..]));
    }
  }

  /** Blanks, tabs and line ends are spaces; letters, digits and the marks of source code are not. */
  lemma SpacesAreSpaces(c: char)
    ensures c in " \t\n\r" ==> IsSpace(c)
    ensures '!' <= c <= '~' ==> !IsSpace(c)
    ensures IsSpace(c) <==> (c as int in
      {9, 10, 11, 12, 13, 28, 29, 30, 31, 32, 133, 160, 5760, 8192, 8193, 8194, 8195, 8196, 8197, 8198, 8199,
       8200, 8201, 8202, 8232, 8233, 8239, 8287, 12288})
  {
  }

  /** What strip leaves has no space at either end, and only spaces are gone. */
  lemma StripMeans(s: string) returns (from: nat, to: nat)
    ensures from <= to <= |s| && Strip(s) == s[from..to]
    ensures forall k :: 0 <= k < |s| && !(from <= k < to) ==> IsSpace(s[k])
    ensures from < to ==> !IsSpace(s[from]) && !IsSpace(s[to - 1])
  {
    hide Lead, Trail, IsSpace;
    var t := LStrip(s);
    from := Lead(s);
    to := from + Trail(t);
    forall k | to <= k < |s|
      ensures IsSpace(s[k])
    {
      assert t[k - from] == s[k];
    }
    if from < to {
      assert t[to - 1 - from] == s[to - 1];
    }
  }
}
