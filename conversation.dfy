/** The Python conversation driver: it keeps the chat history, cleans a reply
    for speech, cuts it into sentence groups of at most 150 characters and
    speaks them one by one between idle waits. The avatar and the model are
    inputs. */
module Conversation {
  import opened Common
  import GemSdk
  import opened Avatar

  // ---------------------------------------------------------------------
  // Cleaning a reply for text-to-speech.

  /** Three backticks start at `i`. */
  predicate FenceAt(s: string, i: int)
  {
    0 <= i && i + 3 <= |s| && s[i] == '`' && s[i + 1] == '`' && s[i + 2] == '`'
  }

  /** The first fence at or after `from`. */
  function FindFence(s: string, from: nat): (r: Option<nat>)
    ensures r.Some? ==> from <= r.value && FenceAt(s, r.value)
    ensures r.Some? ==> forall k :: from <= k < r.value ==> !FenceAt(s, k)
    ensures r.None? ==> forall k :: from <= k ==> !FenceAt(s, k)
    decreases |s| - from
  {
    if from + 3 > |s| then None
    else if FenceAt(s, from) then Some(from)
    else FindFence(s, from + 1)
  }

  /** `re.sub(r"```.*?```", " ", s, flags=re.S)`: from the leftmost fence to
      the first fence that starts after it, each block becomes one space. */
  function StripCodeBlocks(s: string): (r: string)
    decreases |s|
  {
    match FindFence(s, 0)
    case None => s
    case Some(i) =>
      match FindFence(s, i + 3)
      case None => s
      case Some(j) => s[..i] + " " + StripCodeBlocks(s[j + 3..])
  }

  /** Two fences that do not overlap: a fenced block. */
  ghost predicate HasCodeBlock(s: string)
  {
    exists i, j :: FenceAt(s, i) && FenceAt(s, j) && i + 3 <= j
  }

  /** No fenced block survives: the replacement space keeps the text before
      a block from joining with the text after it. */
  lemma {:induction false} NoCodeBlockLeft(s: string)
    ensures !HasCodeBlock(StripCodeBlocks(s))
    decreases |s|
  {
    var r := StripCodeBlocks(s);
    match FindFence(s, 0)
    case None =>
    case Some(i) =>
      match FindFence(s, i + 3)
      case None =>
      case Some(j) =>
        var rest := s[j + 3..];
        var rec := StripCodeBlocks(rest);
        NoCodeBlockLeft(rest);
        assert r == s[..i] + " " + rec;
        forall a | 0 <= a
          ensures FenceAt(r, a) ==> a > i && FenceAt(rec, a - i - 1)
        {
          if a + 3 <= i {
            assert FenceAt(r, a) ==> FenceAt(s, a);
          } else if a <= i {
            assert a + 3 <= |r| ==> r[i] == ' ';
          } else if FenceAt(r, a) {
            assert r[a] == rec[a - i - 1] && r[a + 1] == rec[a - i] && r[a + 2] == rec[a - i + 1];
          }
        }
  }

  /** The first backtick at or after `from`, or `|s|` when there is none. */
  function NextTick(s: string, from: nat): (q: nat)
    ensures from <= q <= |s| || (q == from && from > |s|)
    ensures forall k :: from <= k < q && k < |s| ==> s[k] != '`'
    ensures q < |s| ==> s[q] == '`'
    decreases |s| - from
  {
    if from >= |s| then from
    else if s[from] == '`' then from
    else NextTick(s, from + 1)
  }

  /** `re.sub(r"`[^`]+`", " ", s)`: left to right, a backtick, at least one
      other character and the next backtick become one space. */
  function StripInlineCode(s: string): (r: string)
    decreases |s|
  {
    if s == [] then []
    else if s[0] == '`' then
      var q := NextTick(s, 1);
      if 2 <= q < |s| then " " + StripInlineCode(s[q + 1..])
      else "`" + StripInlineCode(s[1..])
    else [s[0]] + StripInlineCode(s[1..])
  }

  /** Text without backticks is left alone. */
  lemma {:induction false} NoTickUnchanged(s: string)
    requires '`' !in s
    ensures StripInlineCode(s) == s
    decreases |s|
  {
    if s != [] {
      NoTickUnchanged(s[1..]);
      assert [s[0]] + s[1..] == s;
    }
  }

  /** The leftmost span is the one replaced: text without backticks before
      a backtick-enclosed, backtick-free, non-empty span is kept, the span
      becomes one space, and the rest is processed on its own. */
  lemma {:induction false} FirstSpanReplaced(a: string, m: string, b: string)
    requires '`' !in a && '`' !in m && m != []
    ensures StripInlineCode(a + "`" + m + "`" + b) == a + " " + StripInlineCode(b)
    decreases |a|
  {
    if a == [] {
      assert a + "`" + m + "`" + b == "`" + m + "`" + b;
      SpanAtStart(m, b);
      assert [] + " " + StripInlineCode(b) == " " + StripInlineCode(b);
    } else {
      var s := a + "`" + m + "`" + b;
      var t := a[1..] + "`" + m + "`" + b;
      assert s == [a[0]] + t;
      assert s[1..] == t;
      assert StripInlineCode(s) == [a[0]] + StripInlineCode(t);
      FirstSpanReplaced(a[1..], m, b);
      assert [a[0]] + (a[1..] + " " + StripInlineCode(b)) == a + " " + StripInlineCode(b);
    }
  }

  /** A span at the very start becomes one space. */
  lemma SpanAtStart(m: string, b: string)
    requires '`' !in m && m != []
    ensures StripInlineCode("`" + m + "`" + b) == " " + StripInlineCode(b)
  {
    var s := "`" + m + "`" + b;
    assert forall k :: 1 <= k <= |m| ==> s[k] == m[k - 1];
    assert s[|m| + 1] == '`';
    assert NextTick(s, 1) == |m| + 1;
    assert s[|m| + 2..] == b;
  }

  predicate IsPunct(c: char)
  {
    c == '!' || c == '?' || c == ','
  }

  /** `s` without its leading run of `!`, `?` and `,`. */
  function DropPunct(s: string): (r: string)
    ensures |r| <= |s| && r == s[|s| - |r|..]
    ensures r == [] || !IsPunct(r[0])
  {
    if s != [] && IsPunct(s[0]) then DropPunct(s[1..]) else s
  }

  /** `re.sub(r"[!?,]{2,}", lambda m: m.group(0)[0], s)`: every run of these
      marks is cut to its first character (a run of one is kept as it is). */
  function CollapsePunct(s: string): (r: string)
    ensures |r| <= |s|
    ensures r == [] <==> s == []
    ensures r != [] ==> r[0] == s[0]
    decreases |s|
  {
    if s == [] then []
    else if IsPunct(s[0]) then [s[0]] + CollapsePunct(DropPunct(s[1..]))
    else [s[0]] + CollapsePunct(s[1..])
  }

  /** No two of `!`, `?`, `,` stand next to each other. */
  predicate NoAdjacentPunct(s: string)
  {
    forall i, j :: 0 <= i < |s| && j == i + 1 && j < |s| ==> !(IsPunct(s[i]) && IsPunct(s[j]))
  }

  /** After cutting, no two marks are adjacent. */
  lemma {:induction false} CollapsePunctSeparates(s: string)
    ensures NoAdjacentPunct(CollapsePunct(s))
    decreases |s|
  {
    if s != [] {
      var rest := if IsPunct(s[0]) then DropPunct(s[1..]) else s[1..];
      CollapsePunctSeparates(rest);
      var tail := CollapsePunct(rest);
      assert CollapsePunct(s) == [s[0]] + tail;
      ConsKeepsPunct(s[0], tail);
    }
  }

  /** A character in front of a string without adjacent marks keeps it so
      unless both it and the string's first character are marks. */
  lemma ConsKeepsPunct(c: char, t: string)
    requires NoAdjacentPunct(t) && (t == [] || !(IsPunct(c) && IsPunct(t[0])))
    ensures NoAdjacentPunct([c] + t)
  {
    var r := [c] + t;
    assert r[1..] == t;
    forall i, j | 0 <= i < |r| && j == i + 1 && j < |r|
      ensures !(IsPunct(r[i]) && IsPunct(r[j]))
    {
      if i > 0 {
        assert r[i] == t[i - 1] && r[j] == t[j - 1];
      }
    }
  }

  /** The same for whitespace. */
  lemma ConsKeepsSpace(c: char, t: string)
    requires NoDoubleSpace(t) && (t == [] || !(IsSpace(c) && IsSpace(t[0])))
    ensures NoDoubleSpace([c] + t)
  {
    var r := [c] + t;
    assert r[1..] == t;
    forall i, j | 0 <= i < |r| && j == i + 1 && j < |r|
      ensures !(IsSpace(r[i]) && IsSpace(r[j]))
    {
      if i > 0 {
        assert r[i] == t[i - 1] && r[j] == t[j - 1];
      }
    }
  }

  /** `s.replace("\n", " ")`. */
  function ReplaceNewlines(s: string): (r: string)
    ensures |r| == |s|
    ensures forall i :: 0 <= i < |s| ==> r[i] == (if s[i] == '\n' then ' ' else s[i])
  {
    if s == [] then [] else [if s[0] == '\n' then ' ' else s[0]] + ReplaceNewlines(s[1..])
  }

  /** The length of the leading whitespace run. */
  function SpaceRun(s: string): (k: nat)
    ensures k <= |s|
    ensures forall i :: 0 <= i < k ==> IsSpace(s[i])
    ensures k < |s| ==> !IsSpace(s[k])
  {
    if s != [] && IsSpace(s[0]) then 1 + SpaceRun(s[1..]) else 0
  }

  /** `re.sub(r"\s{2,}", " ", s)`: a run of two or more whitespace
      characters becomes one space; a lone whitespace character stays. */
  function CollapseSpace(s: string): (r: string)
    ensures r == [] <==> s == []
    ensures r != [] ==> (IsSpace(r[0]) <==> IsSpace(s[0]))
    decreases |s|
  {
    if s == [] then []
    else if IsSpace(s[0]) && SpaceRun(s) >= 2 then " " + CollapseSpace(s[SpaceRun(s)..])
    else [s[0]] + CollapseSpace(s[1..])
  }

  /** No two whitespace characters stand next to each other. */
  predicate NoDoubleSpace(s: string)
  {
    forall i, j :: 0 <= i < |s| && j == i + 1 && j < |s| ==> !(IsSpace(s[i]) && IsSpace(s[j]))
  }

  /** Collapsing leaves no two adjacent whitespace characters. */
  lemma {:induction false} CollapseSpaceSeparates(s: string)
    ensures NoDoubleSpace(CollapseSpace(s))
    decreases |s|
  {
    if s != [] {
      var k := SpaceRun(s);
      var rest := if IsSpace(s[0]) && k >= 2 then s[k..] else s[1..];
      var head := if IsSpace(s[0]) && k >= 2 then ' ' else s[0];
      CollapseSpaceSeparates(rest);
      var tail := CollapseSpace(rest);
      assert CollapseSpace(s) == [head] + tail;
      assert tail != [] && IsSpace(head) ==> IsSpace(s[0]) && !IsSpace(rest[0]);
      ConsKeepsSpace(head, tail);
    }
  }

  /** Collapsing adds no newline and no mark, and keeps marks apart. */
  lemma {:induction false} CollapseSpaceKeeps(s: string)
    requires '\n' !in s && NoAdjacentPunct(s)
    ensures '\n' !in CollapseSpace(s) && NoAdjacentPunct(CollapseSpace(s))
    decreases |s|
  {
    if s != [] {
      var k := SpaceRun(s);
      var skip := if IsSpace(s[0]) && k >= 2 then k else 1;
      var rest := s[skip..];
      var head := if IsSpace(s[0]) && k >= 2 then ' ' else s[0];
      assert forall i :: 0 <= i < |rest| ==> rest[i] == s[skip + i];
      CollapseSpaceKeeps(rest);
      var tail := CollapseSpace(rest);
      assert CollapseSpace(s) == [head] + tail;
      assert tail != [] && IsPunct(head) ==> skip == 1 && s[0] == head && !IsPunct(s[1]) && !IsPunct(rest[0]);
      ConsKeepsPunct(head, tail);
    }
  }

  /** `_clean_for_tts`: code blocks, inline code, entity unescaping (an input
      here), runs of marks, newlines, whitespace runs, and edge whitespace. */
  function CleanForTts(txt: string, unescape: string -> string): (r: string)
  {
    var t1 := StripCodeBlocks(txt);
    var t2 := StripInlineCode(t1);
    var t3 := unescape(t2);
    var t4 := CollapsePunct(t3);
    var t5 := ReplaceNewlines(t4);
    Strip(CollapseSpace(t5))
  }

  /** A cleaned reply has no newline, no two adjacent whitespace characters,
      no edge whitespace and no two adjacent marks, whatever the unescaping
      produced. */
  lemma CleanForTtsProperties(txt: string, unescape: string -> string)
    ensures var r := CleanForTts(txt, unescape);
      && '\n' !in r && NoDoubleSpace(r) && NoEdgeSpace(r) && NoAdjacentPunct(r)
  {
    var t4 := CollapsePunct(unescape(StripInlineCode(StripCodeBlocks(txt))));
    var t5 := ReplaceNewlines(t4);
    var c := CollapseSpace(t5);
    CollapsePunctSeparates(unescape(StripInlineCode(StripCodeBlocks(txt))));
    assert NoAdjacentPunct(t5) by {
      forall i | 0 <= i < |t5| - 1 ensures !(IsPunct(t5[i]) && IsPunct(t5[i + 1])) {
        assert IsPunct(t5[i]) ==> t5[i] == t4[i];
        assert IsPunct(t5[i + 1]) ==> t5[i + 1] == t4[i + 1];
      }
    }
    assert '\n' !in t5 by {
      forall i | 0 <= i < |t5| ensures t5[i] != '\n' {}
    }
    CollapseSpaceSeparates(t5);
    CollapseSpaceKeeps(t5);
    SliceKeeps(c);
  }

  /** Stripping keeps the three properties, since it only cuts off the ends. */
  lemma SliceKeeps(c: string)
    requires '\n' !in c && NoDoubleSpace(c) && NoAdjacentPunct(c)
    ensures var r := Strip(c);
      '\n' !in r && NoDoubleSpace(r) && NoAdjacentPunct(r)
  {
    var l := TrimLeft(c);
    assert l == c[|c| - |l|..|c|];
    SubstringKeeps(c, |c| - |l|, |c|);
    var r := TrimRight(l);
    assert r == l[0..|r|];
    SubstringKeeps(l, 0, |r|);
  }

  /** Any substring keeps the three properties. */
  lemma SubstringKeeps(c: string, a: nat, b: nat)
    requires a <= b <= |c|
    requires '\n' !in c && NoDoubleSpace(c) && NoAdjacentPunct(c)
    ensures '\n' !in c[a..b] && NoDoubleSpace(c[a..b]) && NoAdjacentPunct(c[a..b])
  {
    var r := c[a..b];
    forall i, j | 0 <= i < |r| && j == i + 1 && j < |r|
      ensures !(IsSpace(r[i]) && IsSpace(r[j])) && !(IsPunct(r[i]) && IsPunct(r[j]))
    {
      assert r[i] == c[a + i] && r[j] == c[a + j];
    }
  }

  // ---------------------------------------------------------------------
  // Sentence pieces: `re.split(r"(?<=[.!?])\s+", text)`.

  predicate IsSentEnd(c: char)
  {
    c == '.' || c == '!' || c == '?'
  }

  /** A split point: a whitespace character right after a sentence end. */
  predicate SplitsAt(s: string, i: int)
  {
    0 < i < |s| && IsSentEnd(s[i - 1]) && IsSpace(s[i])
  }

  /** The pieces of `s[start..]` and the whitespace runs between them,
      scanning from `i`; each split consumes the whole whitespace run. */
  function SplitFrom(s: string, start: nat, i: nat): (r: (seq<string>, seq<string>))
    requires start <= i <= |s|
    ensures |r.0| == |r.1| + 1
    decreases |s| - i
  {
    if i == |s| then ([s[start..]], [])
    else if SplitsAt(s, i) then
      var j := i + SpaceRun(s[i..]);
      var rest := SplitFrom(s, j, j);
      ([s[start..i]] + rest.0, [s[i..j]] + rest.1)
    else SplitFrom(s, start, i + 1)
  }

  /** The sentence pieces of a text. */
  function SplitSentences(s: string): (pieces: seq<string>)
    ensures |pieces| >= 1
  {
    SplitFrom(s, 0, 0).0
  }

  /** Pieces and separators, alternating. */
  function Interleave(pieces: seq<string>, seps: seq<string>): string
    requires |pieces| == |seps| + 1
    decreases |seps|
  {
    if seps == [] then pieces[0] else pieces[0] + seps[0] + Interleave(pieces[1..], seps[1..])
  }

  predicate AllSpace(s: string)
  {
    forall k :: 0 <= k < |s| ==> IsSpace(s[k])
  }

  /** The pieces and separators put back together give the text. */
  lemma {:induction false} SplitCovers(s: string, start: nat, i: nat)
    requires start <= i <= |s|
    ensures Interleave(SplitFrom(s, start, i).0, SplitFrom(s, start, i).1) == s[start..]
    decreases |s| - i
  {
    if i < |s| {
      if SplitsAt(s, i) {
        var j := i + SpaceRun(s[i..]);
        SplitCovers(s, j, j);
        var rest := SplitFrom(s, j, j);
        var p, sep := s[start..i], s[i..j];
        assert SplitFrom(s, start, i) == ([p] + rest.0, [sep] + rest.1);
        assert ([p] + rest.0)[1..] == rest.0 && ([sep] + rest.1)[1..] == rest.1;
        assert Interleave([p] + rest.0, [sep] + rest.1) == p + sep + Interleave(rest.0, rest.1);
        assert s[start..] == p + sep + s[j..];
      } else {
        SplitCovers(s, start, i + 1);
      }
    }
  }

  /** Every separator is a non-empty run of whitespace. */
  lemma {:induction false} SplitSeparatorsSpace(s: string, start: nat, i: nat)
    requires start <= i <= |s|
    ensures forall k :: 0 <= k < |SplitFrom(s, start, i).1| ==>
      SplitFrom(s, start, i).1[k] != [] && AllSpace(SplitFrom(s, start, i).1[k])
    decreases |s| - i
  {
    if i < |s| {
      if SplitsAt(s, i) {
        var j := i + SpaceRun(s[i..]);
        SplitSeparatorsSpace(s, j, j);
        var rest := SplitFrom(s, j, j).1;
        var sep := s[i..j];
        assert sep != [] && AllSpace(sep) by {
          assert forall k :: 0 <= k < |sep| ==> sep[k] == s[i..][k];
        }
        var seps := [sep] + rest;
        assert SplitFrom(s, start, i).1 == seps;
        forall k | 0 <= k < |seps|
          ensures seps[k] != [] && AllSpace(seps[k])
        {
          if k > 0 {
            assert seps[k] == rest[k - 1];
          }
        }
      } else {
        SplitSeparatorsSpace(s, start, i + 1);
      }
    }
  }

  /** Every piece is non-empty without edge whitespace. */
  predicate CleanPieces(pieces: seq<string>)
  {
    forall k :: 0 <= k < |pieces| ==> pieces[k] != [] && NoEdgeSpace(pieces[k])
  }

  /** Every piece but the last ends with a sentence end. */
  predicate EndsSentences(pieces: seq<string>)
  {
    forall k :: 0 <= k < |pieces| - 1 ==> pieces[k] != [] && IsSentEnd(pieces[k][|pieces[k]| - 1])
  }

  /** In a text without edge whitespace, each piece is non-empty without
      edge whitespace, and each piece but the last ends a sentence. */
  lemma {:induction false} SplitPiecesClean(s: string, start: nat, i: nat)
    requires NoEdgeSpace(s) && start <= i <= |s| && start < |s| && !IsSpace(s[start])
    ensures CleanPieces(SplitFrom(s, start, i).0)
    ensures EndsSentences(SplitFrom(s, start, i).0)
    decreases |s| - i
  {
    if i < |s| {
      if SplitsAt(s, i) {
        var j := i + SpaceRun(s[i..]);
        assert i > start;
        assert j < |s| && !IsSpace(s[j]) by {
          assert forall k :: i <= k < j ==> s[k] == s[i..][k - i];
          assert j < |s| ==> s[j] == s[i..][j - i];
        }
        SplitPiecesClean(s, j, j);
        var rest := SplitFrom(s, j, j).0;
        var p := s[start..i];
        assert p[0] == s[start] && p[|p| - 1] == s[i - 1];
        assert SplitFrom(s, start, i).0 == [p] + rest;
        assert NoEdgeSpace(p) && IsSentEnd(p[|p| - 1]);
        ConsPieces(p, rest);
      } else {
        assert SplitFrom(s, start, i) == SplitFrom(s, start, i + 1);
        SplitPiecesClean(s, start, i + 1);
      }
    } else {
      var p := s[start..];
      assert SplitFrom(s, start, i) == ([p], []);
      assert p[0] == s[start] && p[|p| - 1] == s[|s| - 1];
    }
  }

  /** A clean piece ending a sentence, put in front of clean pieces. */
  lemma ConsPieces(p: string, rest: seq<string>)
    requires p != [] && NoEdgeSpace(p) && IsSentEnd(p[|p| - 1])
    requires CleanPieces(rest) && EndsSentences(rest)
    ensures CleanPieces([p] + rest) && EndsSentences([p] + rest)
  {
    var r := [p] + rest;
    forall k | 0 <= k < |r|
      ensures r[k] != [] && NoEdgeSpace(r[k])
    {
      if k > 0 {
        assert r[k] == rest[k - 1];
      }
    }
    forall k | 0 <= k < |r| - 1
      ensures r[k] != [] && IsSentEnd(r[k][|r[k]| - 1])
    {
      if k > 0 {
        assert r[k] == rest[k - 1];
      }
    }
  }

  /** Every separator is at most one character long. */
  predicate SingleSeparators(seps: seq<string>)
  {
    forall k :: 0 <= k < |seps| ==> |seps[k]| <= 1
  }

  /** A text with no two adjacent whitespace characters splits at single
      whitespace characters. */
  lemma {:induction false} SplitSingleSeparators(s: string, start: nat, i: nat)
    requires NoDoubleSpace(s) && start <= i <= |s|
    ensures SingleSeparators(SplitFrom(s, start, i).1)
    decreases |s| - i
  {
    if i < |s| {
      if SplitsAt(s, i) {
        var j := i + SpaceRun(s[i..]);
        SplitSingleSeparators(s, j, j);
        assert j <= i + 1 by {
          if i + 1 < |s| {
            assert !IsSpace(s[i + 1]);
            assert s[i..][1] == s[i + 1];
          }
        }
        var seps := [s[i..j]] + SplitFrom(s, j, j).1;
        assert SplitFrom(s, start, i).1 == seps;
        forall k | 0 <= k < |seps|
          ensures |seps[k]| <= 1
        {
          if k > 0 {
            assert seps[k] == SplitFrom(s, j, j).1[k - 1];
          }
        }
      } else {
        assert SplitFrom(s, start, i) == SplitFrom(s, start, i + 1);
        SplitSingleSeparators(s, start, i + 1);
      }
    }
  }

  // ---------------------------------------------------------------------
  // Grouping sentences into chunks of at most 150 characters.

  const ChunkLimit: nat := 150

  /** Clean pieces joined with spaces give a non-empty text without edge
      whitespace. */
  lemma {:induction false} JoinClean(ps: seq<string>)
    requires ps != [] && CleanPieces(ps)
    ensures Join(ps, " ") != [] && NoEdgeSpace(Join(ps, " "))
    decreases |ps|
  {
    if |ps| > 1 {
      var rest := ps[1..];
      assert CleanPieces(rest) by {
        forall k | 0 <= k < |rest|
          ensures rest[k] != [] && NoEdgeSpace(rest[k])
        {
          assert rest[k] == ps[k + 1];
        }
      }
      JoinClean(rest);
      var j := Join(ps, " ");
      assert j == ps[0] + " " + Join(rest, " ");
      assert j[0] == ps[0][0];
      assert j[|j| - 1] == Join(rest, " ")[|Join(rest, " ")| - 1];
    }
  }

  /** The chunk each group of sentences becomes. */
  function JoinGroups(groups: seq<seq<string>>): (chunks: seq<string>)
    ensures |chunks| == |groups|
  {
    seq(|groups|, k requires 0 <= k < |groups| => Join(groups[k], " "))
  }

  /** `chunks` comes from cutting `sents` into non-empty groups in order;
      a group of two or more sentences fits in 150 characters, and each
      group after the first starts with a sentence that did not fit after
      the chunk before it. */
  ghost predicate Grouping(sents: seq<string>, groups: seq<seq<string>>, chunks: seq<string>)
  {
    && Flatten(groups) == sents
    && chunks == JoinGroups(groups)
    && (forall k :: 0 <= k < |groups| ==> groups[k] != [])
    && (forall k :: 0 <= k < |groups| && |groups[k]| >= 2 ==> |chunks[k]| <= ChunkLimit)
    && (forall k :: 0 <= k < |groups| - 1 ==> Overflows(chunks, groups, k))
  }

  /** Group `k + 1` starts with a sentence that did not fit after chunk `k`
      (counting the joining space). */
  predicate Overflows(chunks: seq<string>, groups: seq<seq<string>>, k: int)
  {
    && 0 <= k < |chunks| && k + 1 < |groups| && groups[k + 1] != []
    && |chunks[k]| + 1 + |groups[k + 1][0]| > ChunkLimit
  }

  /** The loop's state after the first `i` sentences: closed groups with
      their chunks, and the open group `cur` held joined in `buf`. */
  ghost predicate ChunkState(sents: seq<string>, i: nat, groups: seq<seq<string>>, chunks: seq<string>,
                             cur: seq<string>, buf: string)
  {
    && i <= |sents|
    && CleanPieces(sents)
    && Grouping(Flatten(groups), groups, chunks)
    && Flatten(groups) + cur == sents[..i]
    && buf == Join(cur, " ") && (cur == [] <==> i == 0)
    && (|cur| >= 2 ==> |buf| <= ChunkLimit)
    && (groups != [] ==> cur != [] && |chunks[|chunks| - 1]| + 1 + |cur[0]| > ChunkLimit)
  }

  /** The chunking loop: a sentence that would take the buffer past 150
      characters (counting the joining space) closes the buffered chunk and
      starts a new one; otherwise it is appended with a space. For clean
      sentences this is a grouping; an empty reply gives no chunk. */
  method ChunkSentences(sents: seq<string>) returns (chunks: seq<string>, ghost groups: seq<seq<string>>)
    ensures CleanPieces(sents) ==> Grouping(sents, groups, chunks)
    ensures sents == [""] ==> chunks == []
  {
    ghost var ok := CleanPieces(sents);
    chunks, groups := [], [];
    var buf := "";
    ghost var cur: seq<string> := [];
    for i := 0 to |sents|
      invariant ok ==> ChunkState(sents, i, groups, chunks, cur, buf)
      invariant sents == [""] ==> buf == "" && chunks == []
    {
      var sent := sents[i];
      if |buf| + |sent| + 1 > ChunkLimit {
        if buf != "" {
          if ok {
            CurClean(sents, i, groups, chunks, cur, buf);
            StripClosed(cur, buf);
            ChunkClose(sents, i, groups, chunks, cur, buf);
          }
          chunks := chunks + [Strip(buf)];
          groups := groups + [cur];
        } else if ok {
          ChunkFirst(sents, i, groups, chunks, cur, buf);
        }
        buf := sent;
        cur := [sent];
      } else {
        if ok {
          ChunkExtend(sents, i, groups, chunks, cur, buf);
        }
        buf := buf + (if buf != "" then " " else "") + sent;
        cur := cur + [sent];
      }
    }
    if buf != "" {
      if ok {
        CurClean(sents, |sents|, groups, chunks, cur, buf);
        StripClosed(cur, buf);
        ChunkFinish(sents, groups, chunks, cur, buf);
      }
      chunks := chunks + [Strip(buf)];
      groups := groups + [cur];
    } else if ok {
      ChunkEmpty(sents, groups, chunks, cur, buf);
    }
  }

  /** A buffer holding clean sentences is left alone by the strip. */
  lemma StripClosed(cur: seq<string>, buf: string)
    requires cur != [] && CleanPieces(cur) && buf == Join(cur, " ")
    ensures Strip(buf) == buf
  {
    JoinClean(cur);
    StripNoEdge(buf);
  }

  /** The open group of the loop is made of clean sentences. */
  lemma CurClean(sents: seq<string>, i: nat, groups: seq<seq<string>>, chunks: seq<string>,
                 cur: seq<string>, buf: string)
    requires ChunkState(sents, i, groups, chunks, cur, buf)
    ensures CleanPieces(cur)
  {
    var f := Flatten(groups);
    forall k | 0 <= k < |cur|
      ensures cur[k] != [] && NoEdgeSpace(cur[k])
    {
      assert cur[k] == (f + cur)[|f| + k] == sents[|f| + k];
    }
  }

  /** A sentence that does not fit closes the open group. */
  lemma ChunkClose(sents: seq<string>, i: nat, groups: seq<seq<string>>, chunks: seq<string>,
                   cur: seq<string>, buf: string)
    requires i < |sents| && ChunkState(sents, i, groups, chunks, cur, buf)
    requires buf != "" && |buf| + |sents[i]| + 1 > ChunkLimit
    ensures ChunkState(sents, i + 1, groups + [cur], chunks + [buf], [sents[i]], sents[i])
  {
    FlattenSnoc(groups, cur);
    GroupingSnoc(groups, chunks, cur, Flatten(groups + [cur]), buf);
    PrefixSnoc(sents, i);
    assert Join([sents[i]], " ") == sents[i];
  }

  /** Closing a non-empty group that respects the limits extends a grouping. */
  lemma GroupingSnoc(groups: seq<seq<string>>, chunks: seq<string>, cur: seq<string>,
                     all: seq<string>, chunk: string)
    requires Grouping(Flatten(groups), groups, chunks) && cur != []
    requires all == Flatten(groups) + cur && chunk == Join(cur, " ")
    requires |cur| >= 2 ==> |chunk| <= ChunkLimit
    requires groups != [] ==> |chunks[|chunks| - 1]| + 1 + |cur[0]| > ChunkLimit
    ensures Grouping(all, groups + [cur], chunks + [chunk])
  {
    FlattenSnoc(groups, cur);
    JoinGroupsSnoc(groups, cur);
    SizesSnoc(groups, chunks, cur, chunk);
    OverflowsSnoc(groups, chunks, cur, chunk);
  }

  /** Closing a non-empty group within the limit keeps every group
      non-empty and every multi-sentence chunk within the limit. */
  lemma SizesSnoc(groups: seq<seq<string>>, chunks: seq<string>, cur: seq<string>, chunk: string)
    requires |chunks| == |groups| && cur != []
    requires forall k :: 0 <= k < |groups| ==> groups[k] != []
    requires forall k :: 0 <= k < |groups| && |groups[k]| >= 2 ==> |chunks[k]| <= ChunkLimit
    requires |cur| >= 2 ==> |chunk| <= ChunkLimit
    ensures var g, c := groups + [cur], chunks + [chunk];
      && (forall k :: 0 <= k < |g| ==> g[k] != [])
      && (forall k :: 0 <= k < |g| && |g[k]| >= 2 ==> |c[k]| <= ChunkLimit)
  {
    var g, c := groups + [cur], chunks + [chunk];
    forall k | 0 <= k < |g|
      ensures g[k] != [] && (|g[k]| >= 2 ==> |c[k]| <= ChunkLimit)
    {
      if k < |groups| {
        assert g[k] == groups[k] && c[k] == chunks[k];
      }
    }
  }

  /** Closing a group that does not fit after the last chunk keeps every
      group boundary an overflow. */
  lemma OverflowsSnoc(groups: seq<seq<string>>, chunks: seq<string>, cur: seq<string>, chunk: string)
    requires |chunks| == |groups| && cur != []
    requires forall k :: 0 <= k < |groups| - 1 ==> Overflows(chunks, groups, k)
    requires groups != [] ==> |chunks[|chunks| - 1]| + 1 + |cur[0]| > ChunkLimit
    ensures forall k :: 0 <= k < |groups| ==> Overflows(chunks + [chunk], groups + [cur], k)
  {
    var g, c := groups + [cur], chunks + [chunk];
    forall k | 0 <= k < |groups|
      ensures Overflows(c, g, k)
    {
      assert c[k] == chunks[k];
      if k + 1 < |groups| {
        assert Overflows(chunks, groups, k);
        assert g[k + 1] == groups[k + 1];
      }
    }
  }

  /** One more group adds its chunk. */
  lemma JoinGroupsSnoc(groups: seq<seq<string>>, cur: seq<string>)
    ensures JoinGroups(groups + [cur]) == JoinGroups(groups) + [Join(cur, " ")]
  {
    var g := groups + [cur];
    var l, r := JoinGroups(g), JoinGroups(groups) + [Join(cur, " ")];
    forall k | 0 <= k < |g|
      ensures l[k] == r[k]
    {
      if k < |groups| {
        assert g[k] == groups[k];
      }
    }
  }

  /** The first sentence opens the first group, whatever its length. */
  lemma ChunkFirst(sents: seq<string>, i: nat, groups: seq<seq<string>>, chunks: seq<string>,
                   cur: seq<string>, buf: string)
    requires i < |sents| && ChunkState(sents, i, groups, chunks, cur, buf) && buf == ""
    ensures ChunkState(sents, i + 1, groups, chunks, [sents[i]], sents[i])
  {
    if cur != [] {
      CurClean(sents, i, groups, chunks, cur, buf);
      JoinClean(cur);
    }
    assert groups == [];
    PrefixSnoc(sents, i);
    assert Join([sents[i]], " ") == sents[i];
  }

  /** A sentence that fits joins the open group. */
  lemma ChunkExtend(sents: seq<string>, i: nat, groups: seq<seq<string>>, chunks: seq<string>,
                    cur: seq<string>, buf: string)
    requires i < |sents| && ChunkState(sents, i, groups, chunks, cur, buf)
    requires |buf| + |sents[i]| + 1 <= ChunkLimit
    ensures ChunkState(sents, i + 1, groups, chunks, cur + [sents[i]],
                       buf + (if buf != "" then " " else "") + sents[i])
  {
    JoinSnoc(cur, sents[i], " ");
    if cur != [] {
      CurClean(sents, i, groups, chunks, cur, buf);
      JoinClean(cur);
      assert (cur + [sents[i]])[0] == cur[0];
    }
    PrefixSnoc(sents, i);
  }

  /** After the last sentence the open group is closed. */
  lemma ChunkFinish(sents: seq<string>, groups: seq<seq<string>>, chunks: seq<string>,
                    cur: seq<string>, buf: string)
    requires ChunkState(sents, |sents|, groups, chunks, cur, buf) && buf != ""
    ensures Grouping(sents, groups + [cur], chunks + [buf])
  {
    assert cur != [] && buf == Join(cur, " ");
    assert Flatten(groups) + cur == sents by {
      assert sents[..|sents|] == sents;
    }
    GroupingSnoc(groups, chunks, cur, sents, buf);
  }

  /** With an empty buffer at the end there were no sentences at all. */
  lemma ChunkEmpty(sents: seq<string>, groups: seq<seq<string>>, chunks: seq<string>,
                   cur: seq<string>, buf: string)
    requires ChunkState(sents, |sents|, groups, chunks, cur, buf) && buf == ""
    ensures Grouping(sents, groups, chunks)
  {
    if cur != [] {
      CurClean(sents, |sents|, groups, chunks, cur, buf);
      JoinClean(cur);
    }
    assert sents[..|sents|] == sents;
  }

  /** Dropping the last group leaves a grouping of the sentences before it. */
  lemma GroupingInit(sents: seq<string>, groups: seq<seq<string>>, chunks: seq<string>)
    requires Grouping(sents, groups, chunks) && groups != []
    ensures var n := |groups| - 1;
      Grouping(Flatten(groups[..n]), groups[..n], chunks[..n])
  {
    var n := |groups| - 1;
    var init := groups[..n];
    assert JoinGroups(init) == chunks[..n];
    forall k | 0 <= k < |init| - 1
      ensures Overflows(chunks[..n], init, k)
    {
      assert Overflows(chunks, groups, k);
      assert init[k + 1] == groups[k + 1];
    }
  }

  /** The chunks joined with spaces are the sentences joined with spaces:
      grouping loses and adds nothing. */
  lemma {:induction false} GroupingKeepsText(sents: seq<string>, groups: seq<seq<string>>, chunks: seq<string>)
    requires Grouping(sents, groups, chunks)
    ensures Join(chunks, " ") == Join(sents, " ")
    decreases |groups|
  {
    if groups != [] {
      var n := |groups| - 1;
      var init, last := groups[..n], groups[n];
      assert groups == init + [last];
      FlattenSnoc(init, last);
      var front := Flatten(init);
      GroupingInit(sents, groups, chunks);
      GroupingKeepsText(front, init, chunks[..n]);
      JoinSnoc(chunks[..n], chunks[n], " ");
      assert chunks[..n] + [chunks[n]] == chunks;
      if init != [] {
        FlattenNonEmpty(init);
        JoinAppend(front, last, " ");
      } else {
        assert front == [];
        assert sents == last;
      }
    }
  }

  /** Non-empty groups flatten to a non-empty sequence. */
  lemma {:induction false} FlattenNonEmpty(groups: seq<seq<string>>)
    requires groups != [] && forall k :: 0 <= k < |groups| ==> groups[k] != []
    ensures Flatten(groups) != []
  {
    assert |Flatten(groups)| >= |groups[|groups| - 1]|;
  }

  // ---------------------------------------------------------------------
  // What is spoken against the cleaned reply.

  /** `b` is `a` with some whitespace characters turned into plain spaces. */
  predicate SameUpToSpaces(a: string, b: string)
  {
    |a| == |b| && forall k :: 0 <= k < |a| ==> a[k] == b[k] || (IsSpace(a[k]) && b[k] == ' ')
  }

  lemma SameConcat(a1: string, b1: string, a2: string, b2: string)
    requires SameUpToSpaces(a1, b1) && SameUpToSpaces(a2, b2)
    ensures SameUpToSpaces(a1 + a2, b1 + b2)
  {
    forall k | 0 <= k < |a1 + a2|
      ensures (a1 + a2)[k] == (b1 + b2)[k] || (IsSpace((a1 + a2)[k]) && (b1 + b2)[k] == ' ')
    {
      if k >= |a1| {
        assert (a1 + a2)[k] == a2[k - |a1|] && (b1 + b2)[k] == b2[k - |a1|];
      }
    }
  }

  /** Pieces separated by single whitespace characters read the same as the
      pieces joined with spaces, up to which whitespace character it is. */
  lemma {:induction false} InterleaveAsJoin(pieces: seq<string>, seps: seq<string>)
    requires |pieces| == |seps| + 1
    requires forall k :: 0 <= k < |seps| ==> |seps[k]| == 1 && IsSpace(seps[k][0])
    ensures SameUpToSpaces(Interleave(pieces, seps), Join(pieces, " "))
    decreases |seps|
  {
    if seps != [] {
      InterleaveAsJoin(pieces[1..], seps[1..]);
      assert SameUpToSpaces(pieces[0], pieces[0]);
      assert SameUpToSpaces(seps[0], " ");
      SameConcat(pieces[0], pieces[0], seps[0], " ");
      SameConcat(pieces[0] + seps[0], pieces[0] + " ",
                 Interleave(pieces[1..], seps[1..]), Join(pieces[1..], " "));
    } else {
      assert SameUpToSpaces(pieces[0], pieces[0]);
    }
  }

  /** The sentences of a cleaned reply, joined with spaces, are the reply
      with each whitespace character between sentences read as a space. */
  lemma SentencesKeepText(c: string)
    requires NoDoubleSpace(c)
    ensures SameUpToSpaces(c, Join(SplitSentences(c), " "))
  {
    SplitCovers(c, 0, 0);
    SplitSeparatorsSpace(c, 0, 0);
    SplitSingleSeparators(c, 0, 0);
    var r := SplitFrom(c, 0, 0);
    assert c[0..] == c;
    forall k | 0 <= k < |r.1|
      ensures |r.1[k]| == 1 && IsSpace(r.1[k][0])
    {
      assert r.1[k] != [] && AllSpace(r.1[k]) && |r.1[k]| <= 1;
    }
    InterleaveAsJoin(r.0, r.1);
  }

  /** The sentences of a cleaned, non-empty reply are clean pieces. */
  lemma SentencesClean(c: string)
    requires c != [] && NoEdgeSpace(c)
    ensures CleanPieces(SplitSentences(c))
    ensures EndsSentences(SplitSentences(c))
  {
    SplitPiecesClean(c, 0, 0);
  }

  // ---------------------------------------------------------------------
  // Waiting for the avatar to go idle.

  /** One status poll: the HTTP call failed, or the status record with its
      three candidate fields (missing fields are `None`). */
  datatype Poll =
    | PollFailed
    | StatusRecord(connectionStatus: Option<string>, connection_status: Option<string>, status: Option<string>)

  /** Python truthiness of a field value: present and non-empty. */
  predicate Truthy(v: Option<string>)
  {
    v.Some? && v.value != []
  }

  /** `a or b or c`: the first truthy value, else the last one. */
  function StatusFlag(p: Poll): (flag: Option<string>)
    requires p.StatusRecord?
    ensures Truthy(flag) ==> flag == p.connectionStatus || flag == p.connection_status || flag == p.status
  {
    if Truthy(p.connectionStatus) then p.connectionStatus
    else if Truthy(p.connection_status) then p.connection_status
    else p.status
  }

  /** A poll that keeps the wait going: a status whose flag is "streaming". */
  predicate StillStreaming(p: Poll)
  {
    p.StatusRecord? && StatusFlag(p) == Some("streaming")
  }

  /** The avatar counts as streaming exactly when the first of the three
      fields that is present and non-empty says "streaming"; an earlier
      non-empty field of any other value hides a later "streaming". */
  lemma StreamingIff(p: Poll)
    requires p.StatusRecord?
    ensures StillStreaming(p) <==>
      || p.connectionStatus == Some("streaming")
      || (!Truthy(p.connectionStatus) && p.connection_status == Some("streaming"))
      || (!Truthy(p.connectionStatus) && !Truthy(p.connection_status) && p.status == Some("streaming"))
  {
  }

  /** `_idle`: polls until one says the avatar is not streaming (a failed
      poll counts as idle). `polls` are the answers in order; `done` is false
      when they run out while the avatar still streams, and `used` is how
      many were consumed. */
  method Idle(polls: seq<Poll>) returns (done: bool, used: nat)
    ensures used <= |polls|
    ensures forall k :: 0 <= k < used - 1 ==> StillStreaming(polls[k])
    ensures done <==> exists k :: 0 <= k < |polls| && !StillStreaming(polls[k])
    ensures done ==> used > 0 && !StillStreaming(polls[used - 1])
    ensures !done ==> used == |polls|
  {
    used := 0;
    while used < |polls|
      invariant used <= |polls|
      invariant forall k :: 0 <= k < used ==> StillStreaming(polls[k])
    {
      var p := polls[used];
      used := used + 1;
      if p.PollFailed? {
        return true, used;
      }
      var flag := StatusFlag(p);
      if flag != Some("streaming") {
        return true, used;
      }
    }
    return false, used;
  }

  // ---------------------------------------------------------------------
  // The conversation.

  const EmptyTextReply: string := "Hey, I didn't quite get what you said. Can you repeat that for me again?"
  const MaxContext: int := 20

  /** The hesitation openers, picked from at random. */
  const Hesitations: seq<string> := ["um\U{2026} ", "let me think\U{2026} ", "right\U{2026} "]

  /** `_add_hesitation`: `pick` is the random outcome, `None` in the 70 per
      cent of calls that add nothing. A hesitation lower-cases the reply's
      first character; on an empty reply that indexing raises. */
  function AddHesitation(text: string, pick: Option<nat>): (r: Option<string>)
    requires pick.Some? ==> pick.value < |Hesitations|
    ensures pick.None? ==> r == Some(text)
    ensures pick.Some? ==> (r.None? <==> text == [])
    ensures r.Some? && pick.Some? ==>
      && StartsWith(r.value, Hesitations[pick.value])
      && |r.value| == |Hesitations[pick.value]| + |text|
      && r.value[|Hesitations[pick.value]|..][1..] == text[1..]
  {
    if pick.None? then Some(text)
    else if text == [] then None
    else Some(Hesitations[pick.value] + [LowerChar(text[0])] + text[1..])
  }

  /** The texts spoken by a script, in order. */
  function Spoken(steps: seq<Step>): seq<string>
  {
    if steps == [] then []
    else
      var last := steps[|steps| - 1];
      Spoken(steps[..|steps| - 1]) + (if last.Speak? then [last.text] else [])
  }

  lemma SpokenAppend(a: seq<Step>, b: seq<Step>)
    ensures Spoken(a + b) == Spoken(a) + Spoken(b)
    decreases |b|
  {
    if b != [] {
      var n := |b| - 1;
      assert (a + b)[..|a + b| - 1] == a + b[..n];
      SpokenAppend(a, b[..n]);
    } else {
      assert a + b == a;
    }
  }

  /** The script for a list of chunks speaks exactly those chunks, in order. */
  lemma {:induction false} SpeechSpeaksChunks(chunks: seq<string>)
    ensures Spoken(Speech(chunks)) == chunks
  {
    if chunks != [] {
      var n := |chunks| - 1;
      SpeechSpeaksChunks(chunks[..n]);
      var tail := [AwaitIdle, Speak(chunks[n]), AwaitIdle];
      SpokenAppend(Speech(chunks[..n]), tail);
      assert Spoken(tail) == [chunks[n]] by {
        var one, two := [AwaitIdle], [AwaitIdle, Speak(chunks[n])];
        assert one[..0] == [];
        assert Spoken(one) == [];
        assert two[..1] == one;
        assert Spoken(two) == [chunks[n]];
        assert tail[..2] == two;
      }
      assert chunks[..n] + [chunks[n]] == chunks;
    }
  }

  
  /** Whether one of the avatar calls raises: `failAt` is the index of the
      chunk whose `send_text` raises first, if any. */
  predicate Interrupted(chunks: seq<string>, failAt: Option<nat>)
  {
    failAt.Some? && failAt.value < |chunks|
  }

  /** The script of speaking `chunks`: when the call for a chunk raises, the
      chunks before it are spoken and the idle wait before it is the last
      step. */
  function Played(chunks: seq<string>, failAt: Option<nat>): (steps: seq<Step>)
    ensures Interrupted(chunks, failAt) ==> |steps| == 3 * failAt.value + 1
    ensures !Interrupted(chunks, failAt) ==> steps == Speech(chunks)
  {
    if Interrupted(chunks, failAt) then Speech(chunks[..failAt.value]) + [AwaitIdle]
    else Speech(chunks)
  }

  /** An interrupted script speaks exactly the chunks before the failing
      one, and an uninterrupted one all of them. */
  lemma PlayedSpeaks(chunks: seq<string>, failAt: Option<nat>)
    ensures Spoken(Played(chunks, failAt))
      == if Interrupted(chunks, failAt) then chunks[..failAt.value] else chunks
  {
    if Interrupted(chunks, failAt) {
      var before := chunks[..failAt.value];
      SpokenAppend(Speech(before), [AwaitIdle]);
      SpeechSpeaksChunks(before);
      assert [AwaitIdle][..0] == [];
    } else {
      SpeechSpeaksChunks(chunks);
    }
  }

  /** The reply `send` goes on to speak, when it gets that far: the user's
      own text without the model; with it, the model's answer to the
      question on the last 20 entries, with any hesitation. `None` when the
      model call raises, or the hesitation indexes an empty answer. */
  function Said(hist: seq<GemSdk.Msg>, personaPrompt: string, userText: string, useAi: bool,
                ask: (seq<GemSdk.Turn>, string) -> string, llmFails: bool, pick: Option<nat>): (r: Option<string>)
    requires pick.Some? ==> pick.value < |Hesitations|
    ensures !useAi ==> r == Some(userText)
    ensures useAi && llmFails ==> r.None?
    ensures useAi && !llmFails ==>
      r == AddHesitation(ask(GemSdk.Turns(hist, personaPrompt, MaxContext), userText), pick)
  {
    if !useAi then Some(userText)
    else if llmFails then None
    else AddHesitation(ask(GemSdk.Turns(hist, personaPrompt, MaxContext), userText), pick)
  }

  /** Every entry is a question or an answer, the first is a question, and
      every answer directly follows a question. */
  ghost predicate WellFormed(hist: seq<GemSdk.Msg>)
  {
    && (forall k :: 0 <= k < |hist| ==> hist[k].role == "user" || hist[k].role == "assistant")
    && (hist != [] ==> hist[0].role == "user")
    && (forall i :: 0 <= i < |hist| ==> AnsweredQuestion(hist, i))
  }

  /** An answer at position `i + 1` follows a question at `i`. */
  predicate AnsweredQuestion(hist: seq<GemSdk.Msg>, i: int)
    requires 0 <= i < |hist|
  {
    i + 1 < |hist| && hist[i + 1].role == "assistant" ==> hist[i].role == "user"
  }

  /** Recording a question, then its answer, keeps the history well formed. */
  lemma WellFormedTurn(hist: seq<GemSdk.Msg>, question: string, answer: string)
    requires WellFormed(hist)
    ensures WellFormed(hist + [GemSdk.Msg("user", question)])
    ensures WellFormed(hist + [GemSdk.Msg("user", question)] + [GemSdk.Msg("assistant", answer)])
  {
    var h1 := hist + [GemSdk.Msg("user", question)];
    var h2 := h1 + [GemSdk.Msg("assistant", answer)];
    assert forall k :: 0 <= k < |hist| ==> h1[k] == hist[k];
    assert forall k :: 0 <= k < |h1| ==> h2[k] == h1[k];
    assert forall i :: 0 <= i < |h1| ==> AnsweredQuestion(h1, i) by {
      forall i | 0 <= i < |h1|
        ensures AnsweredQuestion(h1, i)
      {
        if i + 1 < |hist| { assert AnsweredQuestion(hist, i); }
      }
    }
    forall i | 0 <= i < |h2|
      ensures AnsweredQuestion(h2, i)
    {
      if i + 1 < |hist| { assert AnsweredQuestion(hist, i); }
    }
  }

  /** The model is asked the recorded question, with the history before it
      as context. */
  lemma StreamAnswers(hist: seq<GemSdk.Msg>, question: string, personaPrompt: string,
                      ask: (seq<GemSdk.Turn>, string) -> string)
    ensures GemSdk.Stream(hist + [GemSdk.Msg("user", question)], personaPrompt, MaxContext, ask)
      == Ok(ask(GemSdk.Turns(hist, personaPrompt, MaxContext), question))
  {
    var asked := hist + [GemSdk.Msg("user", question)];
    assert asked[..|asked| - 1] == hist;
  }

  /** A conversation: the session, the persona prompt, the chat history and
      the script played on the avatar so far. */
  class Chat {
    const sid: string
    const personaPrompt: string
    var hist: seq<GemSdk.Msg>
    var script: seq<Step>

    ghost predicate Valid()
      reads this
    {
      WellFormed(hist)
    }

    constructor (sid: string, personaPrompt: string)
      ensures Valid()
      ensures this.sid == sid && this.personaPrompt == personaPrompt
      ensures hist == [] && script == []
    {
      this.sid := sid;
      this.personaPrompt := personaPrompt;
      hist := [];
      script := [];
    }

    /** The history after `send` on non-blank text: with the model the
        question joins it, followed by the answer `said` when there is one;
        without the model it is unchanged. */
    twostate predicate Recorded(userText: string, useAi: bool, said: Option<string>)
      reads this`hist
    {
      hist == old(hist) + (if useAi then [GemSdk.Msg("user", userText)]
                                         + (if said.Some? then [GemSdk.Msg("assistant", said.value)] else [])
                           else [])
    }

    /** `send`: a blank text gets the fixed reply and changes nothing. With
        the model (`useAi`), the question joins the history, the model
        (`ask`) answers from the persona and the last 20 entries before it,
        the answer (with any hesitation, `pick`) joins the history; without
        it the text itself is the reply. The cleaned reply is spoken in
        chunks of whole sentences, each between two idle waits, and
        returned. `None` is an exception: the model call raising
        (`llmFails`) or a hesitation on an empty answer, after which only
        the question was recorded and nothing was spoken; or the avatar
        call for chunk `failAt` raising, after the chunks before it were
        spoken. */
    method Send(userText: string, useAi: bool, ask: (seq<GemSdk.Turn>, string) -> string,
                llmFails: bool, pick: Option<nat>, unescape: string -> string, failAt: Option<nat>)
      returns (reply: Option<string>, said: Option<string>, ghost cleaned: string,
               ghost groups: seq<seq<string>>, ghost chunks: seq<string>)
      requires Valid()
      requires pick.Some? ==> pick.value < |Hesitations|
      modifies this
      ensures Valid()
      ensures Strip(userText) == [] ==>
        reply == Some(EmptyTextReply) && hist == old(hist) && script == old(script)
      ensures Strip(userText) != [] ==>
        said == Said(old(hist), personaPrompt, userText, useAi, ask, llmFails, pick)
      ensures Strip(userText) != [] ==> Recorded(userText, useAi, said)
      ensures Strip(userText) != [] && said.None? ==> reply.None? && script == old(script)
      ensures Strip(userText) != [] && said.Some? ==>
        && cleaned == CleanForTts(said.value, unescape)
        && script == old(script) + Played(chunks, failAt)
        && reply == (if Interrupted(chunks, failAt) then None else Some(cleaned))
        && ChunksOf(cleaned, groups, chunks)
    {
      said, groups, chunks, cleaned := None, [], [], [];
      if Strip(userText) == [] {
        return Some(EmptyTextReply), said, cleaned, groups, chunks;
      }
      said := Compose(userText, useAi, ask, llmFails, pick);
      if said.None? {
        return None, said, cleaned, groups, chunks;
      }
      var spoken, done;
      spoken, groups, chunks, done := SpeakReply(said.value, unescape, failAt);
      cleaned := spoken;
      if !done {
        return None, said, cleaned, groups, chunks;
      }
      return Some(spoken), said, cleaned, groups, chunks;
    }

    /** The reply `send` goes on to speak: the model's answer (see `Answer`)
        with `useAi`, the user's text without it. */
    method Compose(userText: string, useAi: bool, ask: (seq<GemSdk.Turn>, string) -> string,
                   llmFails: bool, pick: Option<nat>)
      returns (said: Option<string>)
      requires Valid()
      requires pick.Some? ==> pick.value < |Hesitations|
      modifies this
      ensures Valid() && script == old(script)
      ensures said == Said(old(hist), personaPrompt, userText, useAi, ask, llmFails, pick)
      ensures Recorded(userText, useAi, said)
      ensures !useAi ==> hist == old(hist)
      ensures useAi ==>
        hist == old(hist) + [GemSdk.Msg("user", userText)]
                          + (if said.Some? then [GemSdk.Msg("assistant", said.value)] else [])
    {
      if !useAi {
        return Some(userText);
      }
      said := Answer(userText, ask, llmFails, pick);
    }

    /** The model branch of `send`: the question is recorded, the model
        answers from the persona and the last 20 entries before the
        question, and the answer with any hesitation is recorded. The model
        call raising (`llmFails`), or a hesitation on an empty answer,
        raises after the question was recorded. */
    method Answer(userText: string, ask: (seq<GemSdk.Turn>, string) -> string, llmFails: bool,
                  pick: Option<nat>)
      returns (said: Option<string>)
      requires Valid()
      requires pick.Some? ==> pick.value < |Hesitations|
      modifies this
      ensures Valid() && script == old(script)
      ensures llmFails ==> said.None?
      ensures !llmFails ==>
        said == AddHesitation(ask(GemSdk.Turns(old(hist), personaPrompt, MaxContext), userText), pick)
      ensures said.None? ==> hist == old(hist) + [GemSdk.Msg("user", userText)]
      ensures said.Some? ==>
        hist == old(hist) + [GemSdk.Msg("user", userText), GemSdk.Msg("assistant", said.value)]
    {
      var asked := hist + [GemSdk.Msg("user", userText)];
      StreamAnswers(hist, userText, personaPrompt, ask);
      var generated := GemSdk.Stream(asked, personaPrompt, MaxContext, ask);
      if llmFails {
        WellFormedTurn(hist, userText, []);
        hist := asked;
        return None;
      }
      said := AddHesitation(generated.value, pick);
      WellFormedTurn(hist, userText, if said.Some? then said.value else []);
      if said.Some? {
        SnocTwice(hist, GemSdk.Msg("user", userText), GemSdk.Msg("assistant", said.value));
        hist := asked + [GemSdk.Msg("assistant", said.value)];
      } else {
        hist := asked;
      }
    }

    /** The tail of `send`: the reply is cleaned, split into sentences,
        grouped into chunks and spoken chunk by chunk, until the avatar call
        for chunk `failAt` raises (`done` is false then). The chunks are the
        sentence grouping of the cleaned reply (`ChunksOf`). */
    method SpeakReply(text: string, unescape: string -> string, failAt: Option<nat>)
      returns (cleaned: string, ghost groups: seq<seq<string>>, ghost chunks: seq<string>, done: bool)
      modifies this
      ensures cleaned == CleanForTts(text, unescape)
      ensures hist == old(hist) && script == old(script) + Played(chunks, failAt)
      ensures done <==> !Interrupted(chunks, failAt)
      ensures ChunksOf(cleaned, groups, chunks)
    {
      cleaned := CleanForTts(text, unescape);
      var sents := SplitSentences(cleaned);
      var pieces;
      pieces, groups := ChunkSentences(sents);
      chunks := pieces;
      done := SpeakChunks(pieces, failAt);
      CleanForTtsProperties(text, unescape);
      SentencesKeepText(cleaned);
      if cleaned != [] {
        SentencesClean(cleaned);
        GroupingKeepsText(sents, groups, chunks);
        ChunksClean(sents, groups, chunks);
      } else {
        assert sents == [""];
      }
    }

    /** Each chunk in turn: wait for idle, speak it, wait for idle again.
        The call for chunk `failAt` raises after the wait before it. */
    method SpeakChunks(chunks: seq<string>, failAt: Option<nat>) returns (done: bool)
      modifies this
      ensures done <==> !Interrupted(chunks, failAt)
      ensures script == old(script) + Played(chunks, failAt)
      ensures hist == old(hist)
    {
      for i := 0 to |chunks|
        invariant script == old(script) + Speech(chunks[..i])
        invariant hist == old(hist)
        invariant !(failAt.Some? && failAt.value < i)
      {
        SpeechSnoc(chunks[..i], chunks[i]);
        PrefixSnoc(chunks, i);
        script := script + [AwaitIdle];
        if failAt == Some(i) {
          return false;
        }
        script := script + [Speak(chunks[i]), AwaitIdle];
      }
      assert chunks[..|chunks|] == chunks;
      return true;
    }
  }

  /** How `send` cuts the cleaned reply for speaking: for a non-empty reply,
      `chunks` are the 150-character grouping `groups` of its sentences, in
      order; every chunk is clean, together they read as the reply, and
      there are none only for an empty reply. */
  ghost predicate ChunksOf(cleaned: string, groups: seq<seq<string>>, chunks: seq<string>)
  {
    && (cleaned != [] ==> Grouping(SplitSentences(cleaned), groups, chunks))
    && SameUpToSpaces(cleaned, Join(chunks, " "))
    && (forall k :: 0 <= k < |chunks| ==> chunks[k] != [] && NoEdgeSpace(chunks[k]))
    && (cleaned == [] <==> chunks == [])
  }

  /** The chunks of clean sentences are clean, and there are some. */
  lemma ChunksClean(sents: seq<string>, groups: seq<seq<string>>, chunks: seq<string>)
    requires sents != [] && CleanPieces(sents) && Grouping(sents, groups, chunks)
    ensures chunks != []
    ensures forall k :: 0 <= k < |chunks| ==> chunks[k] != [] && NoEdgeSpace(chunks[k])
  {
    forall k | 0 <= k < |chunks|
      ensures chunks[k] != [] && NoEdgeSpace(chunks[k])
    {
      GroupClean(groups, k);
      JoinClean(groups[k]);
    }
  }

  /** Each group of clean pieces is clean. */
  lemma {:induction false} GroupClean(groups: seq<seq<string>>, k: nat)
    requires k < |groups| && CleanPieces(Flatten(groups))
    ensures CleanPieces(groups[k])
    decreases |groups|
  {
    var n := |groups| - 1;
    var front := Flatten(groups[..n]);
    assert Flatten(groups) == front + groups[n];
    if k < n {
      assert CleanPieces(front) by {
        forall m | 0 <= m < |front|
          ensures front[m] != [] && NoEdgeSpace(front[m])
        {
          assert front[m] == Flatten(groups)[m];
        }
      }
      GroupClean(groups[..n], k);
      assert groups[..n][k] == groups[k];
    } else {
      forall m | 0 <= m < |groups[n]|
        ensures groups[n][m] != [] && NoEdgeSpace(groups[n][m])
      {
        assert groups[n][m] == Flatten(groups)[|front| + m];
      }
    }
  }
}
