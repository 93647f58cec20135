/** The defensive clean-up applied to a diagram definition before it is handed
    to the renderer: every "```mermaid" marker is removed in any letter case,
    then every remaining triple backtick, then white space at both ends.

    A global regular-expression replace scans left to right and removes the
    leftmost match, then resumes right after it, so matches never overlap. Without
    the `u` flag, case-insensitive matching never maps a non-ASCII character to an
    ASCII one, so only ASCII letters fold. */
module ChartCleaner {
  import opened JsString

  const Backtick: char := '`'

  /** The letters of the language tag, in lower case. */
  const Tag: string := "mermaid"

  /** The length of a full marker: three backticks and the tag. */
  const MarkerLength: nat := 3 + |Tag|

  /** `c` matches the lower-case ASCII letter `lower` ignoring case. */
  predicate SameLetterIgnoringCase(c: char, lower: char)
    requires 'a' <= lower <= 'z'
  {
    c == lower || c as int == lower as int - 32
  }

  /** Three backticks start at index `i` of `s`. */
  predicate FenceAt(s: string, i: nat)
  {
    i + 3 <= |s| && s[i] == Backtick && s[i + 1] == Backtick && s[i + 2] == Backtick
  }

  ghost predicate NoFence(s: string)
  {
    forall i: nat :: !FenceAt(s, i)
  }

  /** A "```mermaid" marker, in any letter case, starts at index `i` of `s`. */
  predicate MarkerAt(s: string, i: nat)
  {
    i + MarkerLength <= |s| && FenceAt(s, i)
    && forall k :: 0 <= k < |Tag| ==> SameLetterIgnoringCase(s[i + 3 + k], Tag[k])
  }

  ghost predicate NoMarker(s: string)
  {
    forall i: nat :: !MarkerAt(s, i)
  }

  /** The global, case-insensitive removal of the marker. Each removal takes
      out a whole marker, so the output is shorter by a multiple of its length. */
  function RemoveMarkers(s: string): (r: string)
    ensures |r| <= |s|
    ensures (|s| - |r|) % MarkerLength == 0
    decreases |s|
  {
    if MarkerAt(s, 0) then RemoveMarkers(s[MarkerLength..])
    else if s == [] then []
    else [s[0]] + RemoveMarkers(s[1..])
  }

  /** The global removal of triple backticks. Each removal takes out three
      characters, so the output is shorter by a multiple of three. */
  function RemoveFences(s: string): (r: string)
    ensures |r| <= |s|
    ensures (|s| - |r|) % 3 == 0
    decreases |s|
  {
    if FenceAt(s, 0) then RemoveFences(s[3..])
    else if s == [] then []
    else [s[0]] + RemoveFences(s[1..])
  }

  /** The cleaned chart: no triple backtick anywhere (so in particular no
      marker in any letter case), and no white space at either end. */
  function Clean(chart: string): (r: string)
    ensures NoFence(r) && NoMarker(r)
    ensures Trimmed(r)
  {
    RemoveFencesLeavesNoFence(RemoveMarkers(chart));
    TrimKeepsFenceFree(RemoveFences(RemoveMarkers(chart)));
    Trim(RemoveFences(RemoveMarkers(chart)))
  }

  // ---------------------------------------------------------------------------
  // No triple backtick survives the fence removal.

  /** The output starts with a backtick only if the input did. */
  lemma LeadingBacktickComesFromInput(u: string)
    requires u == [] || u[0] != Backtick
    ensures RemoveFences(u) == [] || RemoveFences(u)[0] != Backtick
  {
  }

  /** The output starts with two backticks only if the input did. */
  lemma LeadingPairComesFromInput(t: string)
    requires !(|t| >= 2 && t[0] == Backtick && t[1] == Backtick)
    ensures !(|RemoveFences(t)| >= 2 && RemoveFences(t)[0] == Backtick && RemoveFences(t)[1] == Backtick)
  {
    assert !FenceAt(t, 0);
    if t != [] {
      assert RemoveFences(t) == [t[0]] + RemoveFences(t[1..]);
      if t[0] == Backtick {
        LeadingBacktickComesFromInput(t[1..]);
      }
    }
  }

  /** The output of the fence removal never contains three backticks in a row. */
  lemma {:induction false} RemoveFencesLeavesNoFence(s: string)
    ensures NoFence(RemoveFences(s))
    decreases |s|
  {
    if FenceAt(s, 0) {
      RemoveFencesLeavesNoFence(s[3..]);
    } else if s != [] {
      var tail := RemoveFences(s[1..]);
      RemoveFencesLeavesNoFence(s[1..]);
      var r := [s[0]] + tail;
      assert RemoveFences(s) == r;
      forall i: nat
        ensures !FenceAt(r, i)
      {
        if i == 0 {
          if s[0] == Backtick {
            LeadingPairComesFromInput(s[1..]);
          }
        } else {
          assert !FenceAt(tail, i - 1);
        }
      }
    }
  }

  /** A slice of a string without a triple backtick has none either. */
  lemma InfixOfFenceFree(s: string, lo: nat, hi: nat)
    requires lo <= hi <= |s| && NoFence(s)
    ensures NoFence(s[lo..hi])
  {
    forall i: nat
      ensures !FenceAt(s[lo..hi], i)
    {
      assert !FenceAt(s, lo + i);
    }
  }

  /** The cleaned chart is empty exactly when nothing but white space is left
      once markers and fences are removed; in particular a blank chart and a
      bare fence clean to nothing. */
  lemma CleanEmptyIff(chart: string)
    ensures Clean(chart) == [] <==> AllWhitespace(RemoveFences(RemoveMarkers(chart)))
    ensures AllWhitespace(chart) ==> Clean(chart) == []
  {
    TrimEmptyIff(RemoveFences(RemoveMarkers(chart)));
    if AllWhitespace(chart) {
      BlankHasNoFence(chart);
      NoFenceNoMarker(chart);
      RemoveMarkersWithoutMarker(chart);
      RemoveFencesWithoutFence(chart);
    }
  }

  lemma BlankHasNoFence(s: string)
    requires AllWhitespace(s)
    ensures NoFence(s)
  {
    forall i: nat
      ensures !FenceAt(s, i)
    {
      if i + 3 <= |s| {
        assert IsWhitespace(s[i]);
      }
    }
  }

  /** Every marker starts with a fence. */
  lemma NoFenceNoMarker(s: string)
    requires NoFence(s)
    ensures NoMarker(s)
  {
    forall i: nat
      ensures !MarkerAt(s, i)
    {
      assert !FenceAt(s, i);
    }
  }

  lemma TrimKeepsFenceFree(s: string)
    requires NoFence(s)
    ensures NoFence(Trim(s)) && NoMarker(Trim(s))
  {
    var r := Trim(s);
    var i := |s| - |TrimStart(s)|;
    assert i + |r| <= |s| && r == s[i..i + |r|];
    InfixOfFenceFree(s, i, i + |r|);
    NoFenceNoMarker(r);
  }

  // ---------------------------------------------------------------------------
  // Each maximal run of backticks shrinks to its length modulo 3.

  function Backticks(n: nat): (r: string)
    ensures |r| == n && forall k :: 0 <= k < n ==> r[k] == Backtick
  {
    seq(n, _ => Backtick)
  }

  lemma {:induction false} RunShrinksModThree(n: nat, rest: string)
    requires rest == [] || rest[0] != Backtick
    ensures RemoveFences(Backticks(n) + rest) == Backticks(n % 3) + RemoveFences(rest)
    decreases n
  {
    var s := Backticks(n) + rest;
    if n >= 3 {
      assert FenceAt(s, 0);
      assert s[3..] == Backticks(n - 3) + rest;
      assert (n - 3) % 3 == n % 3;
      RunShrinksModThree(n - 3, rest);
    } else {
      ShortRunKept(n, rest);
    }
  }

  /** One or two backticks before a non-backtick are kept. */
  lemma ShortRunKept(n: nat, rest: string)
    requires n < 3 && (rest == [] || rest[0] != Backtick)
    ensures RemoveFences(Backticks(n) + rest) == Backticks(n) + RemoveFences(rest)
  {
    var s := Backticks(n) + rest;
    if n == 2 {
      assert !FenceAt(s, 0);
      assert s[1..] == Backticks(1) + rest;
      ShortRunKept(1, rest);
      assert Backticks(2) == [Backtick] + Backticks(1);
    } else if n == 1 {
      assert !FenceAt(s, 0);
      assert s[1..] == rest;
      assert Backticks(1) == [Backtick];
    } else {
      assert s == rest;
    }
  }

  // ---------------------------------------------------------------------------
  // Only backticks are removed by the fence removal.

  /** The characters of `s` other than backticks, in order. */
  function WithoutBackticks(s: string): (r: string)
    ensures Backtick !in r
  {
    if s == [] then []
    else if s[0] == Backtick then WithoutBackticks(s[1..])
    else [s[0]] + WithoutBackticks(s[1..])
  }

  lemma {:induction false} RemoveFencesKeepsOtherCharacters(s: string)
    ensures WithoutBackticks(RemoveFences(s)) == WithoutBackticks(s)
    decreases |s|
  {
    if FenceAt(s, 0) {
      RemoveFencesKeepsOtherCharacters(s[3..]);
      calc {
        WithoutBackticks(s);
        WithoutBackticks(s[1..]);
        { assert s[1..][0] == Backtick; }
        WithoutBackticks(s[1..][1..]);
        { assert s[1..][1..][0] == Backtick; }
        WithoutBackticks(s[1..][1..][1..]);
        { assert s[1..][1..][1..] == s[3..]; }
        WithoutBackticks(s[3..]);
      }
    } else if s != [] {
      RemoveFencesKeepsOtherCharacters(s[1..]);
      var r := [s[0]] + RemoveFences(s[1..]);
      assert r[1..] == RemoveFences(s[1..]);
    }
  }

  // ---------------------------------------------------------------------------
  // Only backticks and the letters of the tag are removed by the marker removal.

  /** `c` can be part of a marker: a backtick or a letter of the tag in
      either ASCII case. */
  predicate MarkerChar(c: char)
  {
    c == Backtick || exists k :: 0 <= k < |Tag| && SameLetterIgnoringCase(c, Tag[k])
  }

  /** The characters of `s` that cannot be part of a marker, in order. */
  function WithoutMarkerChars(s: string): (r: string)
    ensures forall k :: 0 <= k < |r| ==> !MarkerChar(r[k])
  {
    if s == [] then []
    else if MarkerChar(s[0]) then WithoutMarkerChars(s[1..])
    else [s[0]] + WithoutMarkerChars(s[1..])
  }

  /** A prefix made only of marker characters does not show. */
  lemma {:induction false} WithoutMarkerCharsSkips(s: string, n: nat)
    requires n <= |s| && forall k :: 0 <= k < n ==> MarkerChar(s[k])
    ensures WithoutMarkerChars(s) == WithoutMarkerChars(s[n..])
    decreases n
  {
    if n > 0 {
      WithoutMarkerCharsSkips(s[1..], n - 1);
      assert s[1..][n - 1..] == s[n..];
    }
  }

  /** The marker removal deletes nothing but whole markers: every character
      that cannot belong to a marker is kept, in order. */
  lemma {:induction false} RemoveMarkersKeepsOtherCharacters(s: string)
    ensures WithoutMarkerChars(RemoveMarkers(s)) == WithoutMarkerChars(s)
    decreases |s|
  {
    if MarkerAt(s, 0) {
      RemoveMarkersKeepsOtherCharacters(s[MarkerLength..]);
      forall k | 0 <= k < MarkerLength
        ensures MarkerChar(s[k])
      {
        if k >= 3 {
          assert SameLetterIgnoringCase(s[3 + (k - 3)], Tag[k - 3]);
        }
      }
      WithoutMarkerCharsSkips(s, MarkerLength);
    } else if s != [] {
      RemoveMarkersKeepsOtherCharacters(s[1..]);
      var r := [s[0]] + RemoveMarkers(s[1..]);
      assert r[1..] == RemoveMarkers(s[1..]);
    }
  }

  /** A backtick in the first letter's place rules out a marker. */
  lemma NoMarkerBeforeBacktick(s: string)
    requires |s| > 3 && s[3] == Backtick
    ensures !MarkerAt(s, 0)
  {
    assert !SameLetterIgnoringCase(s[3 + 0], Tag[0]);
  }

  /** One to three backticks right before a marker are not part of any match
      and are kept; the marker after them is removed. */
  lemma {:induction false} BackticksBeforeMarkerKept(ticks: string, marker: string, rest: string)
    requires 1 <= |ticks| <= 3 && forall k :: 0 <= k < |ticks| ==> ticks[k] == Backtick
    requires |marker| == MarkerLength && MarkerAt(marker, 0)
    ensures RemoveMarkers(ticks + marker + rest) == ticks + RemoveMarkers(rest)
    decreases |ticks|
  {
    var tail := marker + rest;
    var s := ticks + tail;
    assert ticks + marker + rest == s;
    assert s[3] == Backtick by {
      assert s[3] == tail[3 - |ticks|] == marker[3 - |ticks|];
    }
    NoMarkerBeforeBacktick(s);
    assert s[1..] == ticks[1..] + tail;
    assert RemoveMarkers(s) == [ticks[0]] + RemoveMarkers(ticks[1..] + tail);
    if |ticks| == 1 {
      assert ticks[1..] + tail == tail;
      LeadingMarkerDropped(marker, rest);
    } else {
      BackticksBeforeMarkerKept(ticks[1..], marker, rest);
      assert ticks[1..] + marker + rest == ticks[1..] + tail;
      assert [ticks[0]] + (ticks[1..] + RemoveMarkers(rest)) == ticks + RemoveMarkers(rest);
    }
  }

  /** One left-to-right pass can leave a marker behind: three backticks, then
      a marker, then the tag, leave the three backticks joined to the tag. */
  lemma OnePassCanLeaveMarker(marker: string, tag: string)
    requires |marker| == MarkerLength && MarkerAt(marker, 0)
    requires |tag| == |Tag| && forall k :: 0 <= k < |Tag| ==> SameLetterIgnoringCase(tag[k], Tag[k])
    ensures RemoveMarkers(Backticks(3) + marker + tag) == Backticks(3) + tag
    ensures MarkerAt(Backticks(3) + tag, 0)
  {
    BackticksBeforeMarkerKept(Backticks(3), marker, tag);
    RemoveMarkersShort(tag);
    var t := Backticks(3) + tag;
    assert forall k :: 0 <= k < |Tag| ==> t[3 + k] == tag[k];
  }

  // ---------------------------------------------------------------------------
  // Identities: text that needs no cleaning is left alone.

  lemma {:induction false} RemoveMarkersWithoutMarker(s: string)
    requires NoMarker(s)
    ensures RemoveMarkers(s) == s
    decreases |s|
  {
    if s != [] {
      assert !MarkerAt(s, 0);
      forall i: nat
        ensures !MarkerAt(s[1..], i)
      {
        assert !MarkerAt(s, i + 1);
      }
      RemoveMarkersWithoutMarker(s[1..]);
    }
  }

  lemma {:induction false} RemoveFencesWithoutFence(s: string)
    requires NoFence(s)
    ensures RemoveFences(s) == s
    decreases |s|
  {
    if s != [] {
      assert !FenceAt(s, 0);
      forall i: nat
        ensures !FenceAt(s[1..], i)
      {
        assert !FenceAt(s, i + 1);
      }
      RemoveFencesWithoutFence(s[1..]);
    }
  }

  /** A second fence removal changes nothing. */
  lemma RemoveFencesIdempotent(s: string)
    ensures RemoveFences(RemoveFences(s)) == RemoveFences(s)
  {
    RemoveFencesLeavesNoFence(s);
    RemoveFencesWithoutFence(RemoveFences(s));
  }

  /** Cleaning is idempotent: a cleaned chart cleans to itself. */
  lemma CleanIdempotent(chart: string)
    ensures Clean(Clean(chart)) == Clean(chart)
  {
    var c := Clean(chart);
    RemoveMarkersWithoutMarker(c);
    RemoveFencesWithoutFence(c);
    TrimOfTrimmed(c);
  }

  /** A chart without any backtick is only trimmed. */
  lemma CleanWithoutBackticks(chart: string)
    requires Backtick !in chart
    ensures Clean(chart) == Trim(chart)
  {
    forall i: nat
      ensures !FenceAt(chart, i) && !MarkerAt(chart, i)
    {
      if i + 3 <= |chart| {
        assert chart[i] in chart;
      }
    }
    RemoveMarkersWithoutMarker(chart);
    RemoveFencesWithoutFence(chart);
  }

  // ---------------------------------------------------------------------------
  // Letter case of the marker does not matter.

  /** A leading marker is dropped whatever the case of its letters. */
  lemma LeadingMarkerDropped(marker: string, rest: string)
    requires |marker| == MarkerLength && MarkerAt(marker, 0)
    ensures RemoveMarkers(marker + rest) == RemoveMarkers(rest)
  {
    var s := marker + rest;
    assert MarkerAt(s, 0) by {
      assert forall k :: 0 <= k < MarkerLength ==> s[k] == marker[k];
    }
    assert s[MarkerLength..] == rest;
  }

  /** Text without backticks passes through the marker removal unchanged. */
  lemma {:induction false} RemoveMarkersSkipsPlainPrefix(a: string, b: string)
    requires Backtick !in a
    ensures RemoveMarkers(a + b) == a + RemoveMarkers(b)
    decreases |a|
  {
    if a != [] {
      var s := a + b;
      assert !FenceAt(s, 0);
      assert s[1..] == a[1..] + b;
      RemoveMarkersSkipsPlainPrefix(a[1..], b);
    } else {
      assert a + b == b;
    }
  }

  /** Text without backticks passes through the fence removal unchanged. */
  lemma {:induction false} RemoveFencesSkipsPlainPrefix(a: string, b: string)
    requires Backtick !in a
    ensures RemoveFences(a + b) == a + RemoveFences(b)
    decreases |a|
  {
    if a != [] {
      var s := a + b;
      assert !FenceAt(s, 0);
      assert s[1..] == a[1..] + b;
      RemoveFencesSkipsPlainPrefix(a[1..], b);
    } else {
      assert a + b == b;
    }
  }

  /** Text shorter than a marker cannot hold one. */
  lemma {:induction false} RemoveMarkersShort(s: string)
    requires |s| < MarkerLength
    ensures RemoveMarkers(s) == s
    decreases |s|
  {
    if s != [] {
      RemoveMarkersShort(s[1..]);
    }
  }

  /** A definition wrapped in a fenced block, with the opening marker in any
      letter case, cleans to its trimmed body. */
  lemma FencedBlockCleans(marker: string, body: string)
    requires |marker| == MarkerLength && MarkerAt(marker, 0)
    requires Backtick !in body
    ensures Clean(marker + body + "```") == Trim(body)
  {
    var fence := "```";
    assert marker + body + fence == marker + (body + fence);
    LeadingMarkerDropped(marker, body + fence);
    RemoveMarkersSkipsPlainPrefix(body, fence);
    RemoveMarkersShort(fence);
    RemoveFencesSkipsPlainPrefix(body, fence);
    assert FenceAt(fence, 0) && fence[3..] == [];
    assert body + [] == body;
  }

  /** The opening marker as the model usually writes it. */
  lemma LowerCaseMarker()
    ensures MarkerAt("```mermaid", 0)
  {
  }

  /** The logic-flow example: a fenced definition cleans to its body. */
  lemma FencedExampleCleans(marker: string, body: string, core: string)
    requires marker == "```mermaid" && body == "\ngraph TD\nA-->B\n"
    requires core == "graph TD\nA-->B"
    ensures Clean(marker + body + "```") == core
  {
    LowerCaseMarker();
    ExampleBody(body, core);
    FencedBlockCleans(marker, body);
    TrimAround("\n", core, "\n");
  }

  lemma ExampleBody(body: string, core: string)
    requires body == "\ngraph TD\nA-->B\n" && core == "graph TD\nA-->B"
    ensures Backtick !in body && body == "\n" + core + "\n"
    ensures Trimmed(core) && AllWhitespace("\n")
  {
  }
}
