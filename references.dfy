/**
 * `uploadsInMarkdown` (src/server/src/index.js): the names of uploaded files a
 * note refers to. The source runs the global regular expression
 * `/\/uploads\/([^)\s]+)/g` with `exec` in a loop and collects the captures in
 * a `Set`. A global `exec` finds the leftmost match at or after `lastIndex`
 * and resumes right after it; the capture is greedy. The model states that
 * scan on positions (`Scan`) and proves which occurrences it finds.
 */
module References {
  import opened Wrappers
  import opened Text
  import opened Sequences

  const Prefix: string := "/uploads/"

  /** A character the capture class `[^)\s]` accepts. */
  predicate NameChar(c: char) {
    c != ')' && !IsSpace(c)
  }

  /** A name the expression can capture: non-empty, name characters only. */
  predicate IsRefName(n: string) {
    n != [] && forall i :: 0 <= i < |n| ==> NameChar(n[i])
  }

  /** The length of the maximal run of name characters starting at `k`. */
  function RunLength(md: string, k: nat): (n: nat)
    requires k <= |md|
    ensures k + n <= |md|
    ensures k + n == |md| || !NameChar(md[k + n])
    decreases |md| - k
  {
    if k < |md| && NameChar(md[k]) then 1 + RunLength(md, k + 1) else 0
  }

  /** The run consists of name characters only. */
  lemma {:induction false} RunLengthChars(md: string, k: nat)
    requires k <= |md|
    ensures forall j :: k <= j < k + RunLength(md, k) ==> NameChar(md[j])
    decreases |md| - k
  {
    if k < |md| && NameChar(md[k]) {
      RunLengthChars(md, k + 1);
    }
  }

  /** The expression matches at `p`: the prefix, then at least one name character. */
  predicate MatchAt(md: string, p: int) {
    0 <= p && p + |Prefix| <= |md| && md[p..p + |Prefix|] == Prefix && RunLength(md, p + |Prefix|) > 0
  }

  /** Where a match at `p` ends: the greedy capture stops at `)`, white space or the end. */
  function MatchEnd(md: string, p: int): (e: nat)
    requires MatchAt(md, p)
    ensures p + |Prefix| < e <= |md|
  {
    p + |Prefix| + RunLength(md, p + |Prefix|)
  }

  /** The capture of a match at `p`. */
  function NameAt(md: string, p: int): (n: string)
    requires MatchAt(md, p)
    ensures |n| == RunLength(md, p + |Prefix|)
  {
    md[p + |Prefix|..MatchEnd(md, p)]
  }

  /** A capture is a non-empty run of name characters. */
  lemma NameAtIsRefName(md: string, p: int)
    requires MatchAt(md, p)
    ensures IsRefName(NameAt(md, p))
  {
    RunLengthChars(md, p + |Prefix|);
  }

  /** A capture stands in the text right after the prefix. */
  lemma NameAtOccurs(md: string, p: int)
    requires MatchAt(md, p)
    ensures OccursAt(md, Prefix + NameAt(md, p), p)
  {
    assert md[p..MatchEnd(md, p)] == Prefix + NameAt(md, p);
  }

  /** The start positions of the matches `exec` finds from `lastIndex == i` on. */
  function Scan(md: string, i: nat): (ps: seq<nat>)
    requires i <= |md|
    ensures forall k :: 0 <= k < |ps| ==> i <= ps[k] && MatchAt(md, ps[k])
    decreases |md| - i
  {
    if i == |md| then []
    else if MatchAt(md, i) then [i] + Scan(md, MatchEnd(md, i))
    else Scan(md, i + 1)
  }

  function NamesAt(md: string, ps: seq<nat>): (ns: seq<string>)
    requires forall k :: 0 <= k < |ps| ==> MatchAt(md, ps[k])
    ensures |ns| == |ps|
    ensures forall k :: 0 <= k < |ps| ==> ns[k] == NameAt(md, ps[k])
  {
    if ps == [] then [] else [NameAt(md, ps[0])] + NamesAt(md, ps[1..])
  }

  /** The captures of the scan from `lastIndex == i` on, in order, repeats included. */
  function MatchesFrom(md: string, i: nat): seq<string>
    requires i <= |md|
    decreases |md| - i
  {
    if i == |md| then []
    else if MatchAt(md, i) then [NameAt(md, i)] + MatchesFrom(md, MatchEnd(md, i))
    else MatchesFrom(md, i + 1)
  }

  /** The captures are the names at the positions the scan stops at. */
  lemma {:induction false} MatchesFromScan(md: string, i: nat)
    requires i <= |md|
    ensures MatchesFrom(md, i) == NamesAt(md, Scan(md, i))
    decreases |md| - i
  {
    if i < |md| {
      if MatchAt(md, i) {
        var rest := Scan(md, MatchEnd(md, i));
        MatchesFromScan(md, MatchEnd(md, i));
        assert Scan(md, i) == [i] + rest;
        assert ([i] + rest)[1..] == rest;
      } else {
        MatchesFromScan(md, i + 1);
      }
    }
  }

  /** One step of the scan: a match at `i` is captured and skipped, otherwise the search moves on by one. */
  lemma MatchesFromStep(md: string, i: nat)
    requires i < |md|
    ensures MatchAt(md, i) ==> MatchesFrom(md, i) == [NameAt(md, i)] + MatchesFrom(md, MatchEnd(md, i))
    ensures !MatchAt(md, i) ==> MatchesFrom(md, i) == MatchesFrom(md, i + 1)
  {
  }

  function Matches(md: string): seq<string> {
    MatchesFrom(md, 0)
  }

  /**
   * The text `exec` searches: the notes, or the string "null" when the column
   * is null (a default parameter only replaces `undefined`, and `exec`
   * converts its argument to a string).
   */
  function NoteText(notes: Option<string>): string {
    match notes
    case Some(s) => s
    case None => "null"
  }

  /** The value of `[...uploadsInMarkdown(notes)]`: the set in insertion order. */
  function Refs(notes: Option<string>): seq<string> {
    Dedup(Matches(NoteText(notes)))
  }

  /** The `while ((m = re.exec(md)) !== null) urls.add(m[1])` loop. */
  method UploadsInMarkdown(notes: Option<string>) returns (urls: seq<string>)
    ensures urls == Refs(notes)
  {
    var md := NoteText(notes);
    urls := [];
    var i := 0;
    ghost var found: seq<string> := [];
    while i < |md|
      invariant 0 <= i <= |md|
      invariant Matches(md) == found + MatchesFrom(md, i)
      invariant urls == Dedup(found)
    {
      if MatchAt(md, i) {
        var e := MatchEnd(md, i);
        var name := md[i + |Prefix|..e];
        CaptureStep(md, i, found);
        DedupSnoc(found, name);
        if name !in urls {
          urls := urls + [name];
        }
        found := found + [name];
        i := e;
      } else {
        MatchesFromStep(md, i);
        i := i + 1;
      }
    }
    assert found + MatchesFrom(md, i) == found;
  }

  /** The loop invariant survives capturing the match at `i`. */
  lemma CaptureStep(md: string, i: nat, found: seq<string>)
    requires i < |md| && MatchAt(md, i)
    requires Matches(md) == found + MatchesFrom(md, i)
    ensures Matches(md) == (found + [md[i + |Prefix|..MatchEnd(md, i)]]) + MatchesFrom(md, MatchEnd(md, i))
  {
    MatchesFromStep(md, i);
  }

  // ----------------------------------------------------------------- lemmas

  /** Matches never overlap: each one starts at or after the end of the previous. */
  lemma {:induction false} ScanDisjoint(md: string, i: nat)
    requires i <= |md|
    ensures forall k :: 0 <= k < |Scan(md, i)| - 1 ==> MatchEnd(md, Scan(md, i)[k]) <= Scan(md, i)[k + 1]
    decreases |md| - i
  {
    if i < |md| {
      if MatchAt(md, i) {
        ScanDisjoint(md, MatchEnd(md, i));
      } else {
        ScanDisjoint(md, i + 1);
      }
    }
  }

  /**
   * Every place the expression could match is either found by the scan or lies
   * inside an earlier match (the run of `/uploads/a/uploads/b` swallows the
   * second prefix, so only `a/uploads/b` is captured).
   */
  lemma {:induction false} ScanComplete(md: string, i: nat, p: nat)
    requires i <= p && MatchAt(md, p)
    ensures p in Scan(md, i) || exists q :: q in Scan(md, i) && q < p < MatchEnd(md, q)
    decreases |md| - i
  {
    assert i < |md|;
    if MatchAt(md, i) {
      var e := MatchEnd(md, i);
      if p >= e {
        ScanComplete(md, e, p);
      } else if p > i {
        assert i in Scan(md, i);
      }
    } else {
      ScanComplete(md, i + 1, p);
    }
  }

  /** Both directions together: the scan finds exactly the matches not inside another. */
  lemma ScanExact(md: string, p: nat)
    requires MatchAt(md, p)
    requires forall q :: 0 <= q < p && MatchAt(md, q) ==> MatchEnd(md, q) <= p
    ensures p in Scan(md, 0)
  {
    ScanComplete(md, 0, p);
  }

  lemma {:induction false} RunLengthShift(c: string, b: string, k: nat)
    requires k <= |b|
    ensures RunLength(c + b, |c| + k) == RunLength(b, k)
    decreases |b| - k
  {
    if k < |b| {
      assert (c + b)[|c| + k] == b[k];
      RunLengthShift(c, b, k + 1);
    }
  }

  lemma MatchAtShift(c: string, b: string, j: nat)
    requires j < |b|
    ensures MatchAt(c + b, |c| + j) == MatchAt(b, j)
    ensures MatchAt(b, j) ==> MatchEnd(c + b, |c| + j) == |c| + MatchEnd(b, j)
    ensures MatchAt(b, j) ==> NameAt(c + b, |c| + j) == NameAt(b, j)
  {
    var md, p := c + b, |c| + j;
    if p + |Prefix| <= |md| {
      assert md[p..p + |Prefix|] == b[j..j + |Prefix|];
      RunLengthShift(c, b, j + |Prefix|);
      if MatchAt(b, j) {
        assert md[p + |Prefix|..MatchEnd(md, p)] == b[j + |Prefix|..MatchEnd(b, j)];
      }
    }
  }

  /** A match at `j` in `b` is the same match inside `c + b`, so one step of both scans agrees. */
  lemma ShiftMatchStep(c: string, b: string, j: nat)
    requires j < |b| && MatchAt(b, j)
    requires MatchesFrom(c + b, |c| + MatchEnd(b, j)) == MatchesFrom(b, MatchEnd(b, j))
    ensures MatchesFrom(c + b, |c| + j) == MatchesFrom(b, j)
  {
    MatchAtShift(c, b, j);
    MatchesFromStep(b, j);
    MatchesFromStep(c + b, |c| + j);
  }

  /** No match at `j` in `b` is no match inside `c + b` either: both scans move on by one. */
  lemma ShiftSkipStep(c: string, b: string, j: nat)
    requires j < |b| && !MatchAt(b, j)
    requires MatchesFrom(c + b, |c| + j + 1) == MatchesFrom(b, j + 1)
    ensures MatchesFrom(c + b, |c| + j) == MatchesFrom(b, j)
  {
    MatchAtShift(c, b, j);
    MatchesFromStep(b, j);
    MatchesFromStep(c + b, |c| + j);
  }

  /** Text in front of `b` does not change what the scan finds inside `b`. */
  lemma {:induction false} MatchesFromShift(c: string, b: string, j: nat)
    requires j <= |b|
    ensures MatchesFrom(c + b, |c| + j) == MatchesFrom(b, j)
    decreases |b| - j
  {
    if j == |b| {
      assert |c| + j == |c + b|;
    } else if MatchAt(b, j) {
      MatchesFromShift(c, b, MatchEnd(b, j));
      ShiftMatchStep(c, b, j);
    } else {
      MatchesFromShift(c, b, j + 1);
      ShiftSkipStep(c, b, j);
    }
  }

  lemma {:induction false} RunLengthOfName(md: string, k: nat, n: string)
    requires k + |n| <= |md| && md[k..k + |n|] == n
    requires forall i :: 0 <= i < |n| ==> NameChar(n[i])
    requires k + |n| == |md| || !NameChar(md[k + |n|])
    ensures RunLength(md, k) == |n|
    decreases |n|
  {
    if n != [] {
      assert md[k] == n[0];
      assert md[k + 1..k + 1 + |n[1..]|] == n[1..];
      RunLengthOfName(md, k + 1, n[1..]);
    }
  }

  lemma {:induction false} SkipSlashFree(md: string, i: nat, before: string)
    requires |before| <= |md| && md[..|before|] == before && '/' !in before
    requires i <= |before|
    ensures MatchesFrom(md, i) == MatchesFrom(md, |before|)
    decreases |before| - i
  {
    if i < |before| {
      assert md[i] == before[i];
      assert !MatchAt(md, i);
      MatchesFromStep(md, i);
      SkipSlashFree(md, i + 1, before);
    }
  }

  /**
   * A reference written as `/uploads/<name>` after text without a slash and
   * followed by `)`, white space or the end is captured whole, and scanning
   * continues with the text after it.
   */
  lemma {:induction false} MatchesOfReference(before: string, name: string, after: string)
    requires '/' !in before
    requires IsRefName(name)
    requires after == [] || !NameChar(after[0])
    ensures Matches(before + Prefix + name + after) == [name] + Matches(after)
  {
    var head := before + Prefix + name;
    var md := head + after;
    calc {
      Matches(md);
      MatchesFrom(md, 0);
      { SkipToReference(before, name, after); }
      MatchesFrom(md, |before|);
      { CaptureReference(before, name, after); }
      [name] + MatchesFrom(md, |head|);
      { MatchesAfterText(head, after); }
      [name] + Matches(after);
    }
  }

  /** Scanning `head + after` from the end of `head` finds what scanning `after` finds. */
  lemma MatchesAfterText(head: string, after: string)
    ensures MatchesFrom(head + after, |head|) == Matches(after)
  {
    MatchesFromShift(head, after, 0);
  }

  /** The scan passes over slash-free text up to the reference. */
  lemma SkipToReference(before: string, name: string, after: string)
    requires '/' !in before
    ensures MatchesFrom(before + Prefix + name + after, 0) == MatchesFrom(before + Prefix + name + after, |before|)
  {
    var md := before + Prefix + name + after;
    assert md[..|before|] == before;
    SkipSlashFree(md, 0, before);
  }

  /** At the reference the scan captures the name and goes on after it. */
  lemma CaptureReference(before: string, name: string, after: string)
    requires IsRefName(name)
    requires after == [] || !NameChar(after[0])
    ensures MatchesFrom(before + Prefix + name + after, |before|)
      == [name] + MatchesFrom(before + Prefix + name + after, |before + Prefix + name|)
  {
    ReferenceMatch(before, name, after);
    MatchesFromStep(before + Prefix + name + after, |before|);
  }

  /** The reference itself is a match whose capture is the whole name. */
  lemma ReferenceMatch(before: string, name: string, after: string)
    requires IsRefName(name)
    requires after == [] || !NameChar(after[0])
    ensures MatchAt(before + Prefix + name + after, |before|)
    ensures MatchEnd(before + Prefix + name + after, |before|) == |before + Prefix + name|
    ensures NameAt(before + Prefix + name + after, |before|) == name
  {
    var md := before + Prefix + name + after;
    var k := |before| + |Prefix|;
    assert md[|before|..k] == Prefix;
    assert md[k..k + |name|] == name;
    RunLengthOfName(md, k, name);
  }

  /**
   * Every name the notes refer to is the whole capture of a match: it stands
   * after `/uploads/` in the notes, and the text after it ends there or goes
   * on with `)` or white space.
   */
  lemma RefsSound(notes: Option<string>, n: string)
    requires n in Refs(notes)
    ensures IsRefName(n)
    ensures exists p :: OccursAt(NoteText(notes), Prefix + n, p)
    ensures exists p :: MatchAt(NoteText(notes), p) && NameAt(NoteText(notes), p) == n
    ensures exists p ::
      && OccursAt(NoteText(notes), Prefix + n, p)
      && (p + |Prefix + n| == |NoteText(notes)| || !NameChar(NoteText(notes)[p + |Prefix + n|]))
  {
    var md := NoteText(notes);
    assert n in Matches(md);
    MatchIsCapture(md, n);
    var p :| MatchAt(md, p) && NameAt(md, p) == n;
    CaptureWhole(md, p);
    assert OccursAt(md, Prefix + n, p);
  }

  /** Every name the scan collects is the capture of a match somewhere in the text. */
  lemma MatchIsCapture(md: string, n: string)
    requires n in Matches(md)
    ensures exists p :: MatchAt(md, p) && NameAt(md, p) == n
  {
    var ps := Scan(md, 0);
    MatchesFromScan(md, 0);
    var k :| 0 <= k < |ps| && MatchesFrom(md, 0)[k] == n;
    assert MatchAt(md, ps[k]) && NameAt(md, ps[k]) == n;
  }

  /** A capture is a name, stands right after the prefix, and no name character follows it. */
  lemma CaptureWhole(md: string, p: int)
    requires MatchAt(md, p)
    ensures IsRefName(NameAt(md, p))
    ensures OccursAt(md, Prefix + NameAt(md, p), p)
    ensures p + |Prefix + NameAt(md, p)| == |md| || !NameChar(md[p + |Prefix + NameAt(md, p)|])
  {
    NameAtIsRefName(md, p);
    NameAtOccurs(md, p);
    assert p + |Prefix + NameAt(md, p)| == MatchEnd(md, p);
  }

  /** A match not inside an earlier one is among the names, listed once. */
  lemma RefsComplete(notes: Option<string>, p: nat)
    requires MatchAt(NoteText(notes), p)
    requires forall q :: 0 <= q < p && MatchAt(NoteText(notes), q) ==> MatchEnd(NoteText(notes), q) <= p
    ensures NameAt(NoteText(notes), p) in Refs(notes)
    ensures NoDup(Refs(notes))
  {
    var md := NoteText(notes);
    ScanExact(md, p);
    var ps := Scan(md, 0);
    var k :| 0 <= k < |ps| && ps[k] == p;
    MatchesFromScan(md, 0);
    assert MatchesFrom(md, 0)[k] == NameAt(md, p);
  }

  /**
   * A reference closed by `)` after slash-free text, as in a Markdown image
   * `![alt](/uploads/<name>)`, is the only reference of the notes.
   */
  lemma ClosedReferenceRefs(before: string, name: string)
    requires '/' !in before
    requires IsRefName(name)
    ensures Refs(Some(before + (Prefix + name) + ")")) == [name]
  {
    MatchesOfReference(before, name, ")");
    assert before + (Prefix + name) + ")" == before + Prefix + name + ")";
    NoPrefixNoMatches(")", 0);
    assert Dedup([name]) == [name] by {
      assert [name] == [] + [name];
    }
  }

  /** Text without the prefix has no references; in particular empty and null notes. */
  lemma {:induction false} NoPrefixNoMatches(md: string, i: nat)
    requires i <= |md|
    requires forall q :: i <= q ==> !OccursAt(md, Prefix, q)
    ensures MatchesFrom(md, i) == []
    decreases |md| - i
  {
    if i < |md| {
      assert !MatchAt(md, i) by { if MatchAt(md, i) { assert OccursAt(md, Prefix, i); } }
      NoPrefixNoMatches(md, i + 1);
    }
  }

  lemma EmptyOrNullNotesHaveNoRefs(notes: Option<string>)
    requires notes.None? || notes.value == ""
    ensures Refs(notes) == []
  {
    NoPrefixNoMatches(NoteText(notes), 0);
  }

  /** A name captured anywhere in the notes makes the notes non-empty text. */
  lemma RefsImplyText(notes: Option<string>)
    requires Refs(notes) != []
    ensures notes.Some? && |notes.value| > |Prefix|
  {
    if notes.None? || notes.value == "" {
      EmptyOrNullNotesHaveNoRefs(notes);
    }
    var md := NoteText(notes);
    MatchesFromScan(md, 0);
    assert Matches(md) != [];
    assert MatchAt(md, Scan(md, 0)[0]);
  }

  /** Names are not sanitised: `..` and `/` pass through. */
  lemma DotDotPassesThrough()
    ensures Matches("/uploads/../etc/passwd") == ["../etc/passwd"]
  {
    var name := "../etc/passwd";
    assert IsRefName(name);
    MatchesOfReference("", name, "");
    assert "" + Prefix + name + "" == "/uploads/../etc/passwd";
    NoPrefixNoMatches("", 0);
  }
}
