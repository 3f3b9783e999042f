/** The result view's reading of a report: the split into numbered sections,
    the placeholder and title handling of each section card, the raw data
    stream and the export file name. */
module Sections {
  import opened Outcomes
  import opened Text

  /** The regular expression `\d\.\s+` matches at `i`: a digit, a full stop
      and at least one whitespace character. */
  predicate DelimAt(s: string, i: int)
  {
    0 <= i && i + 2 < |s| && IsDigit(s[i]) && s[i + 1] == '.' && IsSpace(s[i + 2])
  }

  /** No delimiter match starts anywhere in `s`. */
  predicate NoDelim(s: string)
  {
    forall i :: 0 <= i < |s| ==> !DelimAt(s, i)
  }

  /** No delimiter match straddles the seam between `a` and `b`. */
  predicate SafeJoin(a: string, b: string)
  {
    && (0 < |a| && 1 < |b| ==> !(IsDigit(a[|a| - 1]) && b[0] == '.' && IsSpace(b[1])))
    && (1 < |a| && 0 < |b| ==> !(IsDigit(a[|a| - 2]) && a[|a| - 1] == '.' && IsSpace(b[0])))
  }

  /** A concatenation is free of delimiters exactly when both halves are and
      none straddles the seam. */
  lemma {:induction false} NoDelimConcat(a: string, b: string)
    ensures NoDelim(a + b) <==> NoDelim(a) && NoDelim(b) && SafeJoin(a, b)
  {
    var s := a + b;
    if NoDelim(s) {
      forall i | 0 <= i < |a|
        ensures !DelimAt(a, i)
      {
        if DelimAt(a, i) {
          assert DelimAt(s, i);
        }
      }
      forall i | 0 <= i < |b|
        ensures !DelimAt(b, i)
      {
        if DelimAt(b, i) {
          assert DelimAt(s, |a| + i);
        }
      }
      if 0 < |a| && 1 < |b| {
        assert !DelimAt(s, |a| - 1);
      }
      if 1 < |a| && 0 < |b| {
        assert !DelimAt(s, |a| - 2);
      }
    }
    if NoDelim(a) && NoDelim(b) && SafeJoin(a, b) {
      forall i | 0 <= i < |s|
        ensures !DelimAt(s, i)
      {
        if i + 2 < |a| {
          assert !DelimAt(a, i);
        } else if |a| <= i {
          assert !DelimAt(b, i - |a|);
        }
      }
    }
  }

  /** `s` has no decimal digit, so no delimiter can start in it. */
  predicate DigitFree(s: string)
  {
    forall i :: 0 <= i < |s| ==> !IsDigit(s[i])
  }

  lemma DigitFreeConcat(a: string, b: string)
    ensures DigitFree(a + b) <==> DigitFree(a) && DigitFree(b)
  {
    var s := a + b;
    if DigitFree(s) {
      forall i | 0 <= i < |a|
        ensures !IsDigit(a[i])
      {
        assert s[i] == a[i];
      }
      forall i | 0 <= i < |b|
        ensures !IsDigit(b[i])
      {
        assert s[|a| + i] == b[i];
      }
    }
    if DigitFree(a) && DigitFree(b) {
      forall i | 0 <= i < |s|
        ensures !IsDigit(s[i])
      {
        if i < |a| {
          assert s[i] == a[i];
        } else {
          assert s[i] == b[i - |a|];
        }
      }
    }
  }

  /** Digit-free text has no delimiter and cannot end one that crosses its
      right edge. */
  lemma DigitFreeJoins(a: string, b: string)
    requires DigitFree(a)
    ensures NoDelim(a) && SafeJoin(a, b)
  {
  }

  /** `s` ends in two characters that are not digits, so no delimiter can
      start in its last two places whatever follows. */
  predicate EndsInText(s: string)
  {
    2 <= |s| && !IsDigit(s[|s| - 1]) && !IsDigit(s[|s| - 2])
  }

  lemma EndsInTextJoins(a: string, b: string)
    requires EndsInText(a)
    ensures SafeJoin(a, b)
  {
  }

  /** Only the last two characters decide `EndsInText`. */
  lemma EndsInTextConcat(p: string, t: string)
    requires EndsInText(t)
    ensures EndsInText(p + t)
  {
    assert (p + t)[|p + t| - 1] == t[|t| - 1];
    assert (p + t)[|p + t| - 2] == t[|t| - 2];
  }

  lemma DigitFreeEndsInText(t: string)
    requires DigitFree(t) && 2 <= |t|
    ensures EndsInText(t)
  {
  }

  /** A numeral: non-empty, no delimiter, a digit at each end. */
  predicate Numeral(n: string)
  {
    0 < |n| && NoDelim(n) && IsDigit(n[0]) && IsDigit(n[|n| - 1])
  }

  /** Anything may precede a numeral, and anything not starting with '.' may
      follow it. */
  lemma NumeralJoins(a: string, n: string, b: string)
    requires Numeral(n)
    requires b == "" || b[0] != '.'
    ensures SafeJoin(a, n) && SafeJoin(a + n, b)
  {
    assert (a + n)[|a + n| - 1] == n[|n| - 1];
  }

  /** The length of the whitespace run that starts at `i`. */
  function SpaceRun(s: string, i: nat): (n: nat)
    requires i <= |s|
    ensures i + n <= |s|
    ensures forall j :: i <= j < i + n ==> IsSpace(s[j])
    ensures i + n == |s| || !IsSpace(s[i + n])
    decreases |s| - i
  {
    if i == |s| || !IsSpace(s[i]) then 0 else 1 + SpaceRun(s, i + 1)
  }

  /** `split(/\d\.\s+/)`: the pieces between the leftmost, non-overlapping
      delimiter matches, each of which swallows its whole whitespace run. An
      empty string splits into one empty piece, and a match at either end
      yields an empty piece there. */
  function SplitRaw(s: string): (pieces: seq<string>)
    ensures 0 < |pieces|
    ensures |pieces[0]| <= |s| && pieces[0] == s[..|pieces[0]|]
    decreases |s|
  {
    if |s| == 0 then [""]
    else if DelimAt(s, 0) then [""] + SplitRaw(s[2 + SpaceRun(s, 2)..])
    else
      var rest := SplitRaw(s[1..]);
      [[s[0]] + rest[0]] + rest[1..]
  }

  /** `filter(Boolean)` on strings: drops the empty ones, keeps the order. */
  function NonEmpty(ps: seq<string>): (r: seq<string>)
    ensures |r| <= |ps|
    ensures forall k :: 0 <= k < |r| ==> r[k] != "" && r[k] in ps
  {
    if |ps| == 0 then []
    else if ps[0] == "" then NonEmpty(ps[1..])
    else [ps[0]] + NonEmpty(ps[1..])
  }

  /** `text.split(/\d\.\s+/).filter(Boolean)`. */
  function Split(s: string): seq<string>
  {
    NonEmpty(SplitRaw(s))
  }

  /** Filtering a list without empty strings leaves it as it is. */
  lemma {:induction false} NonEmptyKeeps(ps: seq<string>)
    requires forall k :: 0 <= k < |ps| ==> ps[k] != ""
    ensures NonEmpty(ps) == ps
  {
    if 0 < |ps| {
      NonEmptyKeeps(ps[1..]);
    }
  }

  /** No piece of the raw split contains a delimiter. */
  lemma {:induction false} SplitRawNoDelim(s: string)
    ensures forall k :: 0 <= k < |SplitRaw(s)| ==> NoDelim(SplitRaw(s)[k])
    decreases |s|
  {
    if |s| == 0 {
    } else if DelimAt(s, 0) {
      SplitRawNoDelim(s[2 + SpaceRun(s, 2)..]);
    } else {
      var rest := SplitRaw(s[1..]);
      SplitRawNoDelim(s[1..]);
      var p := [s[0]] + rest[0];
      forall i | 0 <= i < |p|
        ensures !DelimAt(p, i)
      {
        if i == 0 {
          if 2 < |p| {
            assert p[1] == rest[0][0] == s[1] && p[2] == rest[0][1] == s[2];
          }
        } else {
          assert !DelimAt(rest[0], i - 1);
        }
      }
      assert SplitRaw(s) == [p] + rest[1..];
    }
  }

  /** Every section the view shows is non-empty and free of delimiters. */
  lemma SplitPieces(s: string)
    ensures forall k :: 0 <= k < |Split(s)| ==> Split(s)[k] != "" && NoDelim(Split(s)[k])
  {
    SplitRawNoDelim(s);
  }

  /** Text without a delimiter is one section, or none when it is empty. */
  lemma SplitWhole(s: string)
    requires NoDelim(s)
    ensures s == "" ==> Split(s) == []
    ensures s != "" ==> Split(s) == [s]
  {
    SplitJoin(s, "");
  }

  /** The first character of a delimiter-free start never opens a match,
      not even one that runs into what follows. */
  lemma NoDelimAtStart(a: string, rest: string)
    requires 0 < |a| && NoDelim(a) && SafeJoin(a, rest)
    ensures !DelimAt(a + rest, 0)
  {
    var s := a + rest;
    if 2 < |a| {
      assert !DelimAt(a, 0);
      assert s[..3] == a[..3];
    } else if |a| == 2 && 0 < |rest| {
      assert s[2] == rest[0];
    } else if |a| == 1 && 1 < |rest| {
      assert s[1] == rest[0] && s[2] == rest[1];
    }
  }

  /** Dropping the first character keeps a string free of delimiters. */
  lemma NoDelimTail(a: string)
    requires 0 < |a| && NoDelim(a)
    ensures NoDelim(a[1..])
  {
    forall i | 0 <= i < |a| - 1
      ensures !DelimAt(a[1..], i)
    {
      assert !DelimAt(a, i + 1);
    }
  }

  lemma SafeJoinTail(a: string, rest: string)
    requires 0 < |a| && SafeJoin(a, rest)
    ensures SafeJoin(a[1..], rest)
  {
  }

  /** Without a match at the front, the first character joins the first piece. */
  lemma SplitStep(s: string)
    requires 0 < |s| && !DelimAt(s, 0)
    ensures SplitRaw(s) == [[s[0]] + SplitRaw(s[1..])[0]] + SplitRaw(s[1..])[1..]
  {
  }

  /** A delimiter-free start is glued to the first piece of what follows. */
  lemma {:induction false} SplitJoin(a: string, rest: string)
    requires NoDelim(a) && SafeJoin(a, rest)
    ensures SplitRaw(a + rest) == [a + SplitRaw(rest)[0]] + SplitRaw(rest)[1..]
    decreases |a|
  {
    var s := a + rest;
    var r := SplitRaw(rest);
    if |a| == 0 {
      assert s == rest;
      assert a + r[0] == r[0];
      assert [r[0]] + r[1..] == r;
    } else {
      NoDelimAtStart(a, rest);
      var a' := a[1..];
      NoDelimTail(a);
      SafeJoinTail(a, rest);
      assert s[1..] == a' + rest;
      SplitJoin(a', rest);
      SplitStep(s);
      assert [s[0]] + (a' + r[0]) == a + r[0];
    }
  }

  /** A digit, a full stop and a whitespace run, then text that does not start
      with whitespace: the match swallows exactly the delimiter. */
  lemma SplitAtDelim(c: char, ws: string, rest: string)
    requires IsDigit(c) && 0 < |ws| && AllSpace(ws)
    requires rest == "" || !IsSpace(rest[0])
    ensures SplitRaw([c] + "." + ws + rest) == [""] + SplitRaw(rest)
  {
    var s := [c] + "." + ws + rest;
    assert DelimAt(s, 0);
    assert forall j :: 2 <= j < 2 + |ws| ==> s[j] == ws[j - 2];
    assert 2 + |ws| < |s| ==> s[2 + |ws|] == rest[0];
    SpaceRunExact(s, 2, |ws|);
    assert s[2 + |ws|..] == rest;
  }

  /** A whitespace run of length `m` followed by the end or by other text is
      exactly what `SpaceRun` measures. */
  lemma {:induction false} SpaceRunExact(s: string, i: nat, m: nat)
    requires i + m <= |s|
    requires forall j :: i <= j < i + m ==> IsSpace(s[j])
    requires i + m == |s| || !IsSpace(s[i + m])
    ensures SpaceRun(s, i) == m
    decreases m
  {
    if m != 0 {
      SpaceRunExact(s, i + 1, m - 1);
    }
  }

  /** The view's fallback text for a section index with no piece. */
  const NoCloudData: string := "No cloud data available."
  const NoHeuristicData: string := "No heuristic data available."

  /** `sections[idx] || placeholder`. */
  function SectionOr(sections: seq<string>, idx: nat, placeholder: string): (t: string)
    ensures idx < |sections| && sections[idx] != "" ==> t == sections[idx]
    ensures !(idx < |sections| && sections[idx] != "") ==> t == placeholder
  {
    if idx < |sections| && sections[idx] != "" then sections[idx] else placeholder
  }

  /** The card titles, one per section index 0 to 6. */
  const Titles: seq<string> := [
    "Identification Summary",
    "Drainage & River Context",
    "Transport & Weathering History",
    "Fossil / Gem / Mineral Assessment",
    "Economic Significance",
    "Confidence Level",
    "Exploration Recommendations"
  ]

  /** A card is drawn for index `idx` of the title list: always in compare
      mode, otherwise only where the primary text has a piece. */
  predicate Rendered(compare: bool, sections: seq<string>, idx: nat)
  {
    idx < |Titles| && (compare || idx < |sections|)
  }

  /** Outside compare mode the cards drawn are exactly the first
      min(7, |sections|) indices, so no placeholder is ever shown there. */
  lemma RenderedOutsideCompare(sections: seq<string>, idx: nat)
    requires forall k :: 0 <= k < |sections| ==> sections[k] != ""
    ensures Rendered(false, sections, idx) <==> idx < 7 && idx < |sections|
    ensures Rendered(false, sections, idx) ==> SectionOr(sections, idx, NoCloudData) == sections[idx]
  {
  }

  /** A text that splits into eight pieces gets exactly seven cards in
      either mode, each showing its own piece: the eighth piece has no card. */
  lemma EightPieceCards(text: string, compare: bool, idx: nat)
    requires |Split(text)| == 8
    ensures Rendered(compare, Split(text), idx) <==> idx < 7
    ensures Rendered(compare, Split(text), idx) ==> SectionOr(Split(text), idx, NoCloudData) == Split(text)[idx]
  {
  }

  /** `text.replace(title + ':', '').trim()`. */
  function StripTitle(text: string, title: string): (t: string)
    ensures |t| <= |text|
  {
    Trim(ReplaceFirst(text, title + ":", ""))
  }

  /** A piece that starts with its title and a colon loses exactly that. */
  lemma StripTitlePrefix(title: string, body: string)
    ensures StripTitle(title + ":" + body, title) == Trim(body)
  {
    assert title + ":" + body == (title + ":") + body;
    ReplacePrefix(title + ":", body);
  }

  /** A piece that never mentions its title and a colon is only trimmed. */
  lemma StripTitleAbsent(text: string, title: string)
    requires !Includes(text, title + ":")
    ensures StripTitle(text, title) == Trim(text)
  {
  }

  /** The separator the raw stream puts before the local fallback text. */
  const FallbackSeparator: string := "\n\n--- LOCAL HEURISTIC " + "FALLBACK ---\n\n"

  /** The raw data stream: the content, then the separator and the comparison
      text when one is present and non-empty. The stream starts with the
      content; something follows it exactly when the comparison is non-empty,
      and then it is the separator, after which the comparison is read back
      whole. */
  function RawStream(content: string, comparison: Option<string>): (r: string)
    ensures |content| <= |r| && r[..|content|] == content
    ensures |r| == |content| <==> !(comparison.Some? && comparison.value != "")
    ensures comparison.Some? && comparison.value != "" ==>
              && |content| + |FallbackSeparator| <= |r|
              && r[|content|..|content| + |FallbackSeparator|] == FallbackSeparator
              && r[|content| + |FallbackSeparator|..] == comparison.value
  {
    if comparison.Some? && comparison.value != "" then
      content + FallbackSeparator + comparison.value
    else content
  }

  /** `replace(/[:.]/g, '-')`. */
  function Dashed(ts: string): (d: string)
    ensures |d| == |ts|
    ensures forall i :: 0 <= i < |ts| ==> d[i] == (if ts[i] == ':' || ts[i] == '.' then '-' else ts[i])
  {
    seq(|ts|, i requires 0 <= i < |ts| => if ts[i] == ':' || ts[i] == '.' then '-' else ts[i])
  }

  const ExportPrefix: string := "riverlithoscope-analysis-"

  /** The export file name for an ISO timestamp. */
  function ExportName(iso: string): (name: string)
    ensures |name| == |ExportPrefix| + |iso| + 4
    ensures name[..|ExportPrefix|] == ExportPrefix
    ensures name[|name| - 4..] == ".txt"
    ensures forall i :: |ExportPrefix| <= i < |name| - 4 ==> name[i] != ':' && name[i] != '.'
  {
    ExportPrefix + Dashed(iso) + ".txt"
  }

  /** Only the separators change: every timestamp character other than ':'
      and '.' keeps its place in the name, after the prefix. */
  lemma ExportNameKeepsDigits(iso: string, i: nat)
    requires i < |iso| && iso[i] != ':' && iso[i] != '.'
    ensures ExportName(iso)[|ExportPrefix| + i] == iso[i]
  {
  }
}
