/** Digging a JSON object out of a language model's answer. */
module LlmJson {
  import opened Common
  import opened PyValues
  import opened Text

  const FENCE := "```"

  /** `json.loads`, with `None` for a decode error. */
  type Loads = string -> Option<Py>

  predicate IsObject(parsed: Option<Py>) { parsed.Some? && parsed.value.Dict? }

  // ----- pieces of the text

  /** `s.split(separator)`. */
  function SplitOn(s: string, separator: string): (pieces: seq<string>)
    requires separator != ""
    ensures |pieces| >= 1
    decreases |s|
  {
    var i := Find(s, separator);
    if i == -1 then [s] else [s[..i]] + SplitOn(s[i + |separator|..], separator)
  }

  /** `s.lower().startswith("json")`. */
  predicate Tagged(s: string) {
    |s| >= 4 && s[0] in "jJ" && s[1] in "sS" && s[2] in "oO" && s[3] in "nN"
  }

  /** What a fenced chunk holds once its tag and the spaces around it are gone. */
  function Untag(chunk: string): string {
    var normalized := Strip(chunk);
    if Tagged(normalized) then Strip(normalized[4..]) else normalized
  }

  /** A chunk with nothing in it is no candidate. */
  function Content(chunk: string): seq<string> {
    if Untag(chunk) == "" then [] else [Untag(chunk)]
  }

  function Contents(chunks: seq<string>): seq<string> {
    if chunks == [] then [] else Content(chunks[0]) + Contents(chunks[1..])
  }

  lemma NextContent(chunks: seq<string>, i: nat)
    requires i < |chunks|
    ensures Contents(chunks[i..]) == Content(chunks[i]) + Contents(chunks[i + 1..])
    ensures Strip(chunks[i]) == "" ==> Untag(chunks[i]) == ""
  {
    hide Strip;
    assert chunks[i..][1..] == chunks[i + 1..];
  }

  lemma NoContent()
    ensures Contents([]) == []
  {
  }

  /** `s.rfind(c)`. */
  function LastOf(s: string, c: char): (i: int)
    ensures -1 <= i < |s|
    ensures i >= 0 ==> s[i] == c
    ensures forall k :: i < k < |s| ==> s[k] != c
  {
    if s == "" then -1
    else if s[|s| - 1] == c then |s| - 1
    else LastOf(s[..|s| - 1], c)
  }

  /** From the first opening brace to the last closing one, when they come in that order. */
  function BraceSlice(text: string): seq<string> {
    var first, last := Find(text, "{"), LastOf(text, '}');
    if first != -1 && last > first then [text[first..last + 1]] else []
  }

  function Candidates(text: string): seq<string> {
    [text] + (if Contains(text, FENCE) then Contents(SplitOn(text, FENCE)) else []) + BraceSlice(text)
  }

  function FirstObject(candidates: seq<string>, loads: Loads): map<string, Py> {
    if candidates == [] then map[]
    else if IsObject(loads(candidates[0])) then loads(candidates[0]).value.entries
    else FirstObject(candidates[1..], loads)
  }

  function Extracted(raw: Py, loads: Loads): map<string, Py> {
    if raw.Str? && Strip(raw.s) != "" then FirstObject(Candidates(Strip(raw.s)), loads) else map[]
  }

  method ParseLlmJsonResponse(raw: Py, loads: Loads) returns (r: map<string, Py>)
    ensures r == Extracted(raw, loads)
  {
    hide Find, LastOf, SplitOn, Strip, Contains, Contents, FirstObject;
    if !raw.Str? {
      return map[];
    }
    var text := Strip(raw.s);
    if text == "" {
      return map[];
    }
    var candidates := [text];
    if Contains(text, FENCE) {
      var chunks := SplitOn(text, FENCE);
      NoContent();
      assert chunks[0..] == chunks && chunks[|chunks|..] == [];
      for i := 0 to |chunks|
        invariant candidates + Contents(chunks[i..]) == [text] + Contents(chunks)
      {
        var normalized := Strip(chunks[i]);
        NextContent(chunks, i);
        if normalized == "" {
          continue;
        }
        if Tagged(normalized) {
          normalized := Strip(normalized[4..]);
        }
        if normalized != "" {
          candidates := candidates + [normalized];
        }
      }
      assert candidates == [text] + Contents(chunks);
    }
    var start, end := Find(text, "{"), LastOf(text, '}');
    if start != -1 && end > start {
      candidates := candidates + [text[start..end + 1]];
    }
    assert candidates == Candidates(text);
    assert candidates[0..] == candidates;
    NextCandidate(candidates, loads, |candidates|);
    for i := 0 to |candidates|
      invariant FirstObject(candidates[i..], loads) == FirstObject(candidates, loads)
    {
      NextCandidate(candidates, loads, i);
      var parsed := loads(candidates[i]);
      if parsed.Some? && parsed.value.Dict? {
        return parsed.value.entries;
      }
    }
    return map[];
  }

  lemma NextCandidate(candidates: seq<string>, loads: Loads, i: nat)
    requires i <= |candidates|
    ensures i == |candidates| ==> FirstObject(candidates[i..], loads) == map[]
    ensures i < |candidates| && IsObject(loads(candidates[i])) ==>
      FirstObject(candidates[i..], loads) == loads(candidates[i]).value.entries
    ensures i < |candidates| && !IsObject(loads(candidates[i])) ==>
      FirstObject(candidates[i..], loads) == FirstObject(candidates[i + 1..], loads)
  {
    if i < |candidates| {
      assert candidates[i..][1..] == candidates[i + 1..];
    }
  }

  // ----- what the pieces are

  function JoinOn(pieces: seq<string>, separator: string): string
    requires |pieces| >= 1
  {
    if |pieces| == 1 then pieces[0] else pieces[0] + separator + JoinOn(pieces[1..], separator)
  }

  lemma OccursInPrefix(s: string, i: nat, p: string, k: int)
    requires i <= |s|
    ensures OccursAt(s[..i], p, k) ==> OccursAt(s, p, k) && k <= i - |p|
  {
    if 0 <= k <= i - |p| {
      assert s[..i][k..k + |p|] == s[k..k + |p|];
    }
  }

  lemma NothingBefore(s: string, separator: string)
    requires separator != "" && Find(s, separator) != -1
    ensures !Contains(s[..Find(s, separator)], separator)
  {
    hide Find;
    var i := Find(s, separator);
    OccursInPrefix(s, i, separator, Find(s[..i], separator));
  }

  lemma JoinCons(piece: string, pieces: seq<string>, separator: string)
    requires |pieces| >= 1
    ensures JoinOn([piece] + pieces, separator) == piece + separator + JoinOn(pieces, separator)
  {
    assert ([piece] + pieces)[1..] == pieces;
  }

  /** Splitting loses nothing and leaves no separator inside a piece. */
  lemma {:induction false} SplitIsFaithful(s: string, separator: string)
    requires separator != ""
    ensures JoinOn(SplitOn(s, separator), separator) == s
    ensures forall i :: 0 <= i < |SplitOn(s, separator)| ==> !Contains(SplitOn(s, separator)[i], separator)
    decreases |s|
  {
    hide Find, JoinOn;
    var i := Find(s, separator);
    if i == -1 {
      JoinOne(s, separator);
    } else {
      var rest := s[i + |separator|..];
      SplitIsFaithful(rest, separator);
      assert s == s[..i] + separator + rest;
      NothingBefore(s, separator);
      JoinCons(s[..i], SplitOn(rest, separator), separator);
    }
  }

  lemma JoinOne(s: string, separator: string)
    ensures JoinOn([s], separator) == s
  {
  }

  // ----- which candidate wins

  /** The answer is the first candidate that parses to an object; without one it is empty. */
  lemma {:induction false} EarliestObjectWins(candidates: seq<string>, loads: Loads)
    ensures (forall k :: 0 <= k < |candidates| ==> !IsObject(loads(candidates[k])))
      ==> FirstObject(candidates, loads) == map[]
    ensures forall k :: (0 <= k < |candidates| && IsObject(loads(candidates[k]))
      && (forall j :: 0 <= j < k ==> !IsObject(loads(candidates[j])))
      ==> FirstObject(candidates, loads) == loads(candidates[k]).value.entries)
  {
    if candidates != [] && !IsObject(loads(candidates[0])) {
      EarliestObjectWins(candidates[1..], loads);
      forall k | 0 <= k < |candidates| && IsObject(loads(candidates[k]))
        && forall j :: 0 <= j < k ==> !IsObject(loads(candidates[j]))
        ensures FirstObject(candidates, loads) == loads(candidates[k]).value.entries
      {
        assert candidates[1..][k - 1] == candidates[k];
        forall j | 0 <= j < k - 1
          ensures !IsObject(loads(candidates[1..][j]))
        {
          assert candidates[1..][j] == candidates[j + 1];
        }
      }
    }
  }

  // ----- an object inside prose

  predicate Braced(obj: string) {
    |obj| >= 2 && obj[0] == '{' && obj[|obj| - 1] == '}'
  }

  lemma FirstOf(s: string, c: char, i: nat)
    requires i < |s| && s[i] == c && forall k :: 0 <= k < i ==> s[k] != c
    ensures Find(s, [c]) == i
  {
    hide Find;
    assert s[i..i + 1] == [c];
    assert OccursAt(s, [c], i);
    var r := Find(s, [c]);
    assert s[r..r + 1][0] == s[r];
  }

  /** The slice is the embedded object exactly when no brace outside it can be mistaken for its own. */
  lemma SliceIsTheObjectIff(pre: string, obj: string, post: string)
    requires Braced(obj)
    ensures BraceSlice(Strip(pre + obj + post)) == [obj] <==> '{' !in pre && '}' !in post
  {
    StripAround(pre, obj, post);
    StrippedKeepsBraces(pre, post);
    SliceAround(LStrip(pre), obj, RStrip(post));
  }

  lemma StrippedKeepsBraces(pre: string, post: string)
    ensures '{' in pre <==> '{' in LStrip(pre)
    ensures '}' in post <==> '}' in RStrip(post)
  {
    hide Lead, Trail;
    if '{' in pre {
      var k :| 0 <= k < |pre| && pre[k] == '{';
      assert LStrip(pre)[k - Lead(pre)] == '{';
    }
    if '}' in post {
      var k :| 0 <= k < |post| && post[k] == '}';
      assert RStrip(post)[k] == '}';
    }
  }

  lemma FirstBrace(pre: string, rest: string)
    requires rest != "" && rest[0] == '{'
    ensures var i := Find(pre + rest, "{"); 0 <= i <= |pre| && (i == |pre| <==> '{' !in pre)
  {
    hide Find;
    var s := pre + rest;
    if '{' in pre {
      var k :| 0 <= k < |pre| && pre[k] == '{';
      assert s[k..k + 1] == "{";
      assert OccursAt(s, "{", k);
    } else {
      FirstOf(s, '{', |pre|);
    }
  }

  lemma LastBrace(rest: string, post: string)
    requires rest != "" && rest[|rest| - 1] == '}'
    ensures var i := LastOf(rest + post, '}'); |rest| - 1 <= i < |rest| + |post| && (i == |rest| - 1 <==> '}' !in post)
  {
    hide LastOf;
    var s := rest + post;
    var i := LastOf(s, '}');
    assert s[|rest| - 1] == '}';
    assert forall m :: |rest| <= m < |s| ==> s[m] == post[m - |rest|];
    if '}' in post {
      var k :| 0 <= k < |post| && post[k] == '}';
      assert s[|rest| + k] == '}';
    }
  }

  lemma SliceAround(pre: string, obj: string, post: string)
    requires Braced(obj)
    ensures BraceSlice(pre + obj + post) == [obj] <==> '{' !in pre && '}' !in post
  {
    hide Find, LastOf;
    var s := pre + obj + post;
    assert s == pre + (obj + post);
    FirstBrace(pre, obj + post);
    LastBrace(pre + obj, post);
    var first, last := Find(s, "{"), LastOf(s, '}');
    assert |s[first..last + 1]| == |obj| ==> first == |pre| && last == |pre| + |obj| - 1;
  }

  /** An unfenced answer that is not itself an object yields the object between its prose, if that is what it is. */
  lemma EmbeddedObjectIsFound(pre: string, obj: string, post: string, loads: Loads)
    requires Braced(obj) && '{' !in pre && '}' !in post
    requires !Contains(Strip(pre + obj + post), FENCE) && !IsObject(loads(Strip(pre + obj + post)))
    ensures Extracted(Str(pre + obj + post), loads) == if IsObject(loads(obj)) then loads(obj).value.entries else map[]
  {
    hide Find, LastOf, BraceSlice, Contains, Lead, Trail, IsSpace, FirstObject;
    MarksAreNoSpace();
    StripAround(pre, obj, post);
    SliceIsTheObjectIff(pre, obj, post);
    var text := Strip(pre + obj + post);
    assert Candidates(text) == [text] + [obj];
    FirstOfTwo(text, obj, loads);
  }

  lemma FirstOfTwo(a: string, b: string, loads: Loads)
    requires !IsObject(loads(a))
    ensures FirstObject([a] + [b], loads) == if IsObject(loads(b)) then loads(b).value.entries else map[]
  {
    assert ([a] + [b])[1..] == [b];
    assert FirstObject([], loads) == map[];
    assert [b][1..] == [];
  }

  // ----- an object inside a fence

  /** No backtick anywhere. */
  predicate Plain(s: string) { '`' !in s }

  lemma FenceChars(s: string, k: int)
    ensures OccursAt(s, FENCE, k) <==> 0 <= k <= |s| - 3 && s[k] == '`' && s[k + 1] == '`' && s[k + 2] == '`'
  {
    if 0 <= k <= |s| - 3 {
      var t := s[k..k + 3];
      assert t[0] == s[k] && t[1] == s[k + 1] && t[2] == s[k + 2];
    }
  }

  lemma FirstFence(pre: string, rest: string)
    requires Plain(pre)
    ensures Find(pre + FENCE + rest, FENCE) == |pre|
  {
    hide Find;
    var s := pre + FENCE + rest;
    FenceChars(s, |pre|);
    var i := Find(s, FENCE);
    FenceChars(s, i);
    assert forall k :: 0 <= k < |pre| ==> s[k] == pre[k] && s[k] in pre;
  }

  lemma NoFence(s: string)
    requires Plain(s)
    ensures Find(s, FENCE) == -1
  {
    hide Find;
    FenceChars(s, Find(s, FENCE));
  }

  ghost predicate AllPlain(pieces: seq<string>) {
    forall i :: 0 <= i < |pieces| ==> Plain(pieces[i])
  }

  /** Splitting what was joined from backtick-free pieces gives the pieces back, for any number of fences. */
  lemma {:induction false} PlainPieces(pieces: seq<string>)
    requires |pieces| >= 1 && AllPlain(pieces)
    ensures SplitOn(JoinOn(pieces, FENCE), FENCE) == pieces
    ensures Contains(JoinOn(pieces, FENCE), FENCE) <==> |pieces| >= 2
  {
    hide Find;
    if |pieces| == 1 {
      NoFence(pieces[0]);
    } else {
      var rest := JoinOn(pieces[1..], FENCE);
      PlainPieces(pieces[1..]);
      FirstFence(pieces[0], rest);
      var s := pieces[0] + FENCE + rest;
      assert s[|pieces[0]| + 3..] == rest && s[..|pieces[0]|] == pieces[0];
    }
  }

  lemma PlainWithin(s: string)
    requires Plain(s)
    ensures Plain(LStrip(s)) && Plain(RStrip(s))
  {
  }

  lemma StripOfLStrip(s: string)
    ensures Strip(LStrip(s)) == Strip(s)
  {
    hide Trail, IsSpace;
    assert Lead(LStrip(s)) == 0;
  }

  /** The tag goes in whatever case it is written. */
  lemma UntagOfTag(tag: string, body: string)
    requires Tagged(tag) && |tag| == 4
    ensures Untag(tag + body) == Strip(body)
  {
    TagIsNoSpace(tag);
    hide Lead, Trail, IsSpace;
    var s := tag + body;
    LeadIs(s, 0);
    assert LStrip(s) == s;
    TrailOfConcat(tag, body);
    var t := tag + RStrip(body);
    assert Strip(s) == t && t[4..] == RStrip(body) && t[..4] == tag;
    StripOfRStrip(body);
  }

  lemma TagIsNoSpace(tag: string)
    requires Tagged(tag)
    ensures !IsSpace(tag[0]) && !IsSpace(tag[3])
  {
  }

  lemma StripOfRStrip(s: string)
    ensures Strip(RStrip(s)) == Strip(s)
  {
    hide Lead, Trail;
    var n, m := Lead(s), Trail(s);
    if n < |s| {
      assert n < m;
      LeadIs(s[..m], n);
      var t := s[n..];
      TrailIs(t, m - n);
      TrailIs(s[..m][n..], m - n);
      assert s[n..][..m - n] == s[..m][n..];
    } else {
      assert m == 0;
    }
  }

  /** The pieces without the spaces at the two ends of the text. */
  function Trimmed(pieces: seq<string>): (r: seq<string>)
    requires |pieces| >= 2
    ensures |r| == |pieces|
  {
    [LStrip(pieces[0])] + pieces[1..|pieces| - 1] + [RStrip(pieces[|pieces| - 1])]
  }

  /** Everything from the first fence to the last. */
  function Middle(inner: seq<string>): string {
    if inner == [] then FENCE else FENCE + JoinOn(inner, FENCE) + FENCE
  }

  lemma {:induction false} JoinLast(pieces: seq<string>, last: string)
    requires |pieces| >= 1
    ensures JoinOn(pieces + [last], FENCE) == JoinOn(pieces, FENCE) + FENCE + last
  {
    if |pieces| > 1 {
      JoinLast(pieces[1..], last);
      assert (pieces + [last])[1..] == pieces[1..] + [last];
    }
  }

  lemma JoinEnds(first: string, inner: seq<string>, last: string)
    ensures JoinOn([first] + inner + [last], FENCE) == first + Middle(inner) + last
  {
    hide JoinOn;
    var rest := inner + [last];
    assert [first] + inner + [last] == [first] + rest;
    JoinCons(first, rest, FENCE);
    if inner == [] {
      assert rest == [last];
      JoinOne(last, FENCE);
    } else {
      JoinLast(inner, last);
    }
  }

  lemma StripOfEnds(first: string, inner: seq<string>, last: string)
    ensures Strip(JoinOn([first] + inner + [last], FENCE)) == JoinOn([LStrip(first)] + inner + [RStrip(last)], FENCE)
    ensures JoinOn([LStrip(first)] + inner + [RStrip(last)], FENCE) != ""
  {
    hide *;
    JoinEnds(first, inner, last);
    JoinEnds(LStrip(first), inner, RStrip(last));
    MarksAreNoSpace();
    MiddleMarks(inner);
    StripAround(first, Middle(inner), last);
    assert |LStrip(first) + Middle(inner) + RStrip(last)| >= |Middle(inner)| > 0;
  }

  /** Stripping a fenced text strips its first and last piece. */
  lemma StripOfFenced(pieces: seq<string>)
    requires |pieces| >= 2
    ensures Strip(JoinOn(pieces, FENCE)) == JoinOn(Trimmed(pieces), FENCE) != ""
  {
    hide *;
    Ends(pieces);
    StripOfEnds(pieces[0], pieces[1..|pieces| - 1], pieces[|pieces| - 1]);
  }

  lemma Ends(pieces: seq<string>)
    requires |pieces| >= 2
    ensures pieces == [pieces[0]] + pieces[1..|pieces| - 1] + [pieces[|pieces| - 1]]
    ensures Trimmed(pieces) == [LStrip(pieces[0])] + pieces[1..|pieces| - 1] + [RStrip(pieces[|pieces| - 1])]
  {
    hide LStrip, RStrip;
  }

  lemma MiddleMarks(inner: seq<string>)
    ensures var core := Middle(inner); core != "" && core[0] == '`' && core[|core| - 1] == '`'
  {
    hide JoinOn;
  }

  lemma TrimmedPieces(pieces: seq<string>)
    requires |pieces| >= 2 && AllPlain(pieces)
    ensures AllPlain(Trimmed(pieces))
    ensures forall i :: 0 <= i < |pieces| ==> Untag(Trimmed(pieces)[i]) == Untag(pieces[i])
  {
    hide Untag, LStrip, RStrip, Plain;
    PlainWithin(pieces[0]);
    PlainWithin(pieces[|pieces| - 1]);
    UntagOfStripped(pieces[0]);
    UntagOfStripped(pieces[|pieces| - 1]);
  }

  lemma UntagOfStripped(s: string)
    ensures Untag(LStrip(s)) == Untag(s) == Untag(RStrip(s))
  {
    hide Strip;
    StripOfLStrip(s);
    StripOfRStrip(s);
  }

  /** Nothing in this chunk that parses to an object. */
  predicate Hollow(chunk: string, loads: Loads) {
    Untag(chunk) == "" || !IsObject(loads(Untag(chunk)))
  }

  lemma {:induction false} HollowContents(chunks: seq<string>, loads: Loads)
    requires forall j :: 0 <= j < |chunks| ==> Hollow(chunks[j], loads)
    ensures forall c :: c in Contents(chunks) ==> !IsObject(loads(c))
  {
    hide Untag;
    if chunks != [] {
      HollowContents(chunks[1..], loads);
      assert Hollow(chunks[0], loads);
    }
  }

  lemma {:induction false} ContentsAppend(a: seq<string>, b: seq<string>)
    ensures Contents(a + b) == Contents(a) + Contents(b)
  {
    hide *;
    NoContent();
    if a == [] {
      assert a + b == b;
    } else {
      ContentsAppend(a[1..], b);
      ContentsCons(a[0], a[1..]);
      ContentsCons(a[0], a[1..] + b);
      assert a == [a[0]] + a[1..] && a + b == [a[0]] + (a[1..] + b);
    }
  }

  /** In any fenced text, the first chunk that holds an object wins, unless the whole text is one. */
  lemma FirstChunkWins(text: string, chunks: seq<string>, i: nat, loads: Loads)
    requires Contains(text, FENCE) && chunks == SplitOn(text, FENCE) && i < |chunks|
    requires !IsObject(loads(text)) && forall j :: 0 <= j < i ==> Hollow(chunks[j], loads)
    requires !Hollow(chunks[i], loads)
    ensures FirstObject(Candidates(text), loads) == loads(Untag(chunks[i])).value.entries
  {
    hide BraceSlice, Untag, FirstObject, SplitOn, Contains, Contents;
    var after := chunks[i + 1..];
    assert chunks == chunks[..i] + ([chunks[i]] + after);
    ContentsAppend(chunks[..i], [chunks[i]] + after);
    ContentsCons(chunks[i], after);
    HollowContents(chunks[..i], loads);
    var before, rest := [text] + Contents(chunks[..i]), Contents(after) + BraceSlice(text);
    var all := before + [Untag(chunks[i])] + rest;
    assert Candidates(text) == all;
    assert all[|before|] == Untag(chunks[i]);
    assert forall j :: 0 <= j < |before| ==> all[j] == text || all[j] in Contents(chunks[..i]);
    EarliestObjectWins(all, loads);
  }

  lemma ContentsCons(chunk: string, chunks: seq<string>)
    ensures Contents([chunk] + chunks) == Content(chunk) + Contents(chunks)
  {
    assert ([chunk] + chunks)[1..] == chunks;
  }

  /**
   * However many fences, tagged or not: the first piece that holds an object is the answer, as long as the whole answer
   * is not an object itself.
   */
  lemma FencedObjectIsFound(pieces: seq<string>, i: nat, loads: Loads)
    requires |pieces| >= 2 && AllPlain(pieces) && i < |pieces|
    requires !IsObject(loads(Strip(JoinOn(pieces, FENCE))))
    requires !Hollow(pieces[i], loads) && forall j :: 0 <= j < i ==> Hollow(pieces[j], loads)
    ensures Extracted(Str(JoinOn(pieces, FENCE)), loads) == loads(Untag(pieces[i])).value.entries
  {
    hide Strip, SplitOn, Contains, Candidates, FirstObject, Untag, JoinOn, Trimmed;
    StripOfFenced(pieces);
    TrimmedPieces(pieces);
    PlainPieces(Trimmed(pieces));
    FirstChunkWins(JoinOn(Trimmed(pieces), FENCE), Trimmed(pieces), i, loads);
  }

  lemma MarksAreNoSpace()
    ensures !IsSpace('{') && !IsSpace('}') && !IsSpace('`') && !IsSpace('j') && !IsSpace('n')
  {
  }

  /** When no chunk of a fenced text holds an object, the slice between its outer braces is tried last. */
  lemma FencedSliceIsLast(raw: string, text: string, slice: string, loads: Loads)
    requires text == Strip(raw) && Contains(text, "```") && !IsObject(loads(text))
    requires forall j :: 0 <= j < |SplitOn(text, "```")| ==> Hollow(SplitOn(text, "```")[j], loads)
    requires BraceSlice(text) == [slice]
    ensures Extracted(Str(raw), loads) == if IsObject(loads(slice)) then loads(slice).value.entries else map[]
  {
    hide BraceSlice, Untag, FirstObject, SplitOn, Contains, Contents, Strip;
    var contents := Contents(SplitOn(text, FENCE));
    HollowContents(SplitOn(text, FENCE), loads);
    FencedIsNotEmpty(text);
    var all := [text] + contents + [slice];
    assert Candidates(text) == all && all[|all| - 1] == slice;
    assert forall j :: 0 <= j < |all| - 1 ==> all[j] == text || all[j] in contents;
    EarliestObjectWins(all, loads);
  }

  lemma FencedIsNotEmpty(text: string)
    requires Contains(text, FENCE)
    ensures text != ""
  {
  }

  /** A text that is neither string nor more than spaces gives nothing. */
  lemma NothingToExtract(raw: Py, loads: Loads)
    requires raw.Str? ==> Strip(raw.s) == ""
    ensures Extracted(raw, loads) == map[]
  {
  }

  /** A tag is the letters j, s, o and n, each in either case. */
  lemma TagLetters(s: string)
    ensures Tagged(s) <==> (
      && |s| >= 4
      && (s[0] == 'j' || s[0] == 'J') && (s[1] == 's' || s[1] == 'S')
      && (s[2] == 'o' || s[2] == 'O') && (s[3] == 'n' || s[3] == 'N'))
  {
  }

  /** The tags models write, and a body without one. */
  lemma TagsInUse(body: string)
    ensures Untag("json" + body) == Untag("JSON" + body) == Untag("Json" + body) == Strip(body)
    ensures Strip(body) != "" && Strip(body)[0] !in "jJ" ==> Untag(body) == Strip(body)
  {
    UntagOfTag("json", body);
    UntagOfTag("JSON", body);
    UntagOfTag("Json", body);
    hide Strip;
  }
}
