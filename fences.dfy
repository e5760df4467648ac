/** The clean-up `analyzeImage` applies to the model's reply before parsing it:
    `text.replace(/```json\n?/g, '').replace(/```\n?/g, '').trim()`. */
module Fences {
  import opened Strings

  const JsonFence := "```json"
  const Fence := "```"

  /** A global replace of the literal `marker` followed by an optional newline with the empty
      string. Matches are found left to right and do not overlap; when a newline follows a
      match it is removed with it. */
  function RemoveAll(s: string, marker: string): (r: string)
    requires |marker| > 0
    ensures |r| <= |s|
  {
    if |s| == 0 then s
    else if StartsWith(s, marker) then
      var rest := s[|marker|..];
      RemoveAll(if |rest| > 0 && rest[0] == '\n' then rest[1..] else rest, marker)
    else
      [s[0]] + RemoveAll(s[1..], marker)
  }

  /** The cleaned reply text handed to the JSON parser. */
  function StripFences(text: string): string
  {
    Trim(RemoveAll(RemoveAll(text, JsonFence), Fence))
  }

  /** Without a match, the replace changes nothing. */
  lemma {:induction false} RemoveAllWithoutMatch(s: string, marker: string)
    requires |marker| > 0 && !Contains(s, marker)
    ensures RemoveAll(s, marker) == s
  {
    if |s| > 0 {
      assert !OccursAt(s, marker, 0);
      ContainsInSlice(s, 1, |s|, marker);
      assert s[1..|s|] == s[1..];
      RemoveAllWithoutMatch(s[1..], marker);
    }
  }

  /** An occurrence after the first character of `p + u` is one in `p[1..] + u`, shifted. */
  lemma OccursAtShift(p: string, u: string, marker: string, i: nat)
    requires |p| > 0
    ensures OccursAt(p[1..] + u, marker, i) ==> OccursAt(p + u, marker, i + 1)
  {
    if i + |marker| <= |p[1..] + u| {
      assert (p[1..] + u)[i..i + |marker|] == (p + u)[i + 1..i + 1 + |marker|];
    }
  }

  /** A prefix in which no match starts is copied through unchanged. */
  lemma {:induction false} RemoveAllCopiesPrefix(p: string, u: string, marker: string)
    requires |marker| > 0
    requires forall i :: 0 <= i < |p| ==> !OccursAt(p + u, marker, i)
    ensures RemoveAll(p + u, marker) == p + RemoveAll(u, marker)
  {
    if |p| > 0 {
      var s := p + u;
      assert !OccursAt(s, marker, 0);
      assert !StartsWith(s, marker) by {
        if |marker| <= |s| {
          assert s[..|marker|] == s[0..|marker|];
        }
      }
      assert s[0] == p[0];
      assert s[1..] == p[1..] + u;
      forall i | 0 <= i < |p[1..]| ensures !OccursAt(p[1..] + u, marker, i) {
        OccursAtShift(p, u, marker, i);
      }
      RemoveAllCopiesPrefix(p[1..], u, marker);
      assert RemoveAll(s, marker) == [s[0]] + RemoveAll(s[1..], marker);
    } else {
      assert p + u == u;
    }
  }

  /** After removing every "```", none is left, and the result starts with one or two
      backticks only where the input did. Removal cannot splice a new "```" together because
      the marker is made of backticks alone. */
  lemma {:induction false} RemoveFenceLeavesNoFence(t: string)
    ensures !Contains(RemoveAll(t, Fence), Fence)
    ensures StartsWith(RemoveAll(t, Fence), "`") ==> StartsWith(t, "`")
    ensures StartsWith(RemoveAll(t, Fence), "``") ==> StartsWith(t, "``")
  {
    var r := RemoveAll(t, Fence);
    if |t| == 0 {
    } else if StartsWith(t, Fence) {
      var rest := t[3..];
      RemoveFenceLeavesNoFence(if |rest| > 0 && rest[0] == '\n' then rest[1..] else rest);
    } else {
      var tail := RemoveAll(t[1..], Fence);
      RemoveFenceLeavesNoFence(t[1..]);
      assert r == [t[0]] + tail;
      FenceFromParts(t);
      ConsNoFence(t[0], tail);
      assert StartsWith(r, "`") ==> r[0] == '`';
      assert StartsWith(r, "``") ==> r[0] == '`' && tail[..1] == "`";
      assert StartsWith(t[1..], "`") ==> t[1] == '`';
      assert |t| >= 2 ==> t[..2] == [t[0], t[1]];
    }
  }

  /** A backtick followed by two more is a fence. */
  lemma FenceFromParts(t: string)
    requires |t| > 0
    ensures t[0] == '`' && StartsWith(t[1..], "``") ==> StartsWith(t, Fence)
  {
    if |t| >= 3 {
      assert t[..3] == [t[0]] + t[1..][..2];
    }
  }

  /** Putting one character in front of a text without "```" makes one only when the
      character is a backtick and the text starts with two. */
  lemma ConsNoFence(c: char, tail: string)
    requires !Contains(tail, Fence)
    requires c == '`' ==> !StartsWith(tail, "``")
    ensures !Contains([c] + tail, Fence)
  {
    var r := [c] + tail;
    forall i | 0 <= i <= |r| - 3 ensures !OccursAt(r, Fence, i) {
      if i == 0 {
        assert r[0..3] == [c, tail[0], tail[1]];
        assert tail[..2] == [tail[0], tail[1]];
      } else {
        assert r[i..i + 3] == tail[i - 1..i + 2];
        assert !OccursAt(tail, Fence, i - 1);
      }
    }
  }

  /** The cleaned text contains no "```" and has no space at either end. */
  lemma StripFencesClean(text: string)
    ensures !Contains(StripFences(text), Fence)
    ensures Trimmed(StripFences(text))
  {
    var r2 := RemoveAll(RemoveAll(text, JsonFence), Fence);
    RemoveFenceLeavesNoFence(RemoveAll(text, JsonFence));
    TrimIsTrimmedSlice(r2);
    var lo, hi :| 0 <= lo <= hi <= |r2| && Trim(r2) == r2[lo..hi];
    ContainsInSlice(r2, lo, hi, Fence);
  }

  /** A text with no "```" and no space at either end is already clean. */
  lemma StripFencesKeepsClean(y: string)
    requires !Contains(y, Fence) && Trimmed(y)
    ensures StripFences(y) == y
  {
    ContainsPrefixOfPattern(y, JsonFence, 3);
    assert JsonFence[..3] == Fence;
    RemoveAllWithoutMatch(y, JsonFence);
    RemoveAllWithoutMatch(y, Fence);
    TrimOfTrimmed(y);
  }

  /** Cleaning twice is cleaning once. */
  lemma StripFencesIdempotent(text: string)
    ensures StripFences(StripFences(text)) == StripFences(text)
  {
    StripFencesClean(text);
    StripFencesKeepsClean(StripFences(text));
  }

  /** A reply without "```" is only trimmed. */
  lemma UnfencedReplyOnlyTrimmed(text: string)
    requires !Contains(text, Fence)
    ensures StripFences(text) == Trim(text)
  {
    ContainsPrefixOfPattern(text, JsonFence, 3);
    assert JsonFence[..3] == Fence;
    RemoveAllWithoutMatch(text, JsonFence);
    RemoveAllWithoutMatch(text, Fence);
  }

  /** A body without "```", followed by the closing fence, holds no "```json". */
  lemma NoJsonFenceBeforeClosing(body: string)
    requires !Contains(body, Fence)
    ensures !Contains(body + "\n```", JsonFence)
  {
    var s := body + "\n```";
    forall i | 0 <= i <= |s| - |JsonFence| ensures !OccursAt(s, JsonFence, i) {
      assert s[i..i + 7][..3] == body[i..i + 3];
      assert !OccursAt(body, Fence, i);
      assert JsonFence[..3] == Fence;
    }
  }

  /** The first replace removes the opening "```json" and its newline and nothing else. */
  lemma FencedFirstPass(body: string)
    requires !Contains(body, Fence)
    ensures RemoveAll("```json\n" + body + "\n```", JsonFence) == body + "\n```"
  {
    var text := "```json\n" + body + "\n```";
    assert text[..7] == JsonFence;
    assert text[7..][0] == '\n';
    assert text[7..][1..] == body + "\n```";
    NoJsonFenceBeforeClosing(body);
    RemoveAllWithoutMatch(body + "\n```", JsonFence);
  }

  /** The second replace removes the closing "```": the newline before it keeps any backticks
      at the end of the body from joining it. */
  lemma FencedSecondPass(body: string)
    requires !Contains(body, Fence)
    ensures RemoveAll(body + "\n```", Fence) == body + "\n"
  {
    var p := body + "\n";
    assert body + "\n```" == p + Fence;
    forall i | 0 <= i < |p| ensures !OccursAt(p + Fence, Fence, i) {
      if i + 3 <= |body| {
        assert (p + Fence)[i..i + 3] == body[i..i + 3];
        assert !OccursAt(body, Fence, i);
      } else if i + 3 <= |p + Fence| {
        var window := (p + Fence)[i..i + 3];
        assert window[|body| - i] == '\n';
        assert Fence[|body| - i] == '`';
        assert window != Fence;
      }
    }
    RemoveAllCopiesPrefix(p, Fence, Fence);
    assert Fence[..3] == Fence;
    assert RemoveAll(Fence, Fence) == "";
  }

  /** A reply fenced as a JSON code block, "```json\n" + body + "\n```", cleans to its body. */
  lemma FencedReplyYieldsBody(body: string)
    requires !Contains(body, Fence) && Trimmed(body)
    ensures StripFences("```json\n" + body + "\n```") == body
  {
    FencedFirstPass(body);
    FencedSecondPass(body);
    TrimEndDropsSpace(body, '\n');
    if body == [] {
      assert body + "\n" == "\n";
      assert "\n"[1..] == [];
    } else {
      assert (body + "\n")[0] == body[0];
    }
  }
}
