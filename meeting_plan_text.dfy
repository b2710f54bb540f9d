/** `parse_text_plan`: the free-text answer of the planner is cut into the
    sentences ("steps") that the validators walk. */
module MeetingPlanText {
  import opened Py

  /** The marker after which the answer proper begins. */
  const SolutionPrefix := "SOLUTION:"

  /** The text that is split into steps: what follows the first
      "SOLUTION:", stripped, or the whole plan when the marker is absent. */
  function PlanBody(plan: string): string {
    var k := Find(plan, SolutionPrefix);
    if k >= 0 then Strip(plan[k + |SolutionPrefix|..]) else plan
  }

  /** `[p.strip() for p in pieces]`. */
  function StripEach(pieces: seq<string>): (r: seq<string>)
    ensures |r| == |pieces|
    ensures forall k :: 0 <= k < |r| ==> r[k] == Strip(pieces[k])
  {
    seq(|pieces|, k requires 0 <= k < |pieces| => Strip(pieces[k]))
  }

  /** The non-empty elements of `xs`, in order. */
  function NonEmpty(xs: seq<string>): (r: seq<string>)
    ensures |r| <= |xs|
    ensures forall k :: 0 <= k < |r| ==> r[k] != [] && r[k] in xs
    ensures forall x :: x in xs && x != [] ==> x in r
    ensures (forall k :: 0 <= k < |xs| ==> xs[k] != []) ==> r == xs
    decreases |xs|
  {
    if xs == [] then []
    else
      var front := xs[..|xs| - 1];
      var last := xs[|xs| - 1];
      assert forall k :: 0 <= k < |front| ==> front[k] == xs[k];
      assert xs == front + [last];
      NonEmpty(front) + (if last == [] then [] else [last])
  }

  /** Filtering keeps a non-empty element, after those kept before it, and
      drops an empty one: the filter preserves the order of what it keeps. */
  lemma {:induction false} NonEmptyKeeps(xs: seq<string>, x: string)
    ensures x != [] ==> NonEmpty(xs + [x]) == NonEmpty(xs) + [x]
    ensures x == [] ==> NonEmpty(xs + [x]) == NonEmpty(xs)
  {
    var ys := xs + [x];
    assert ys[..|ys| - 1] == xs;
    assert ys[|ys| - 1] == x;
    if x == [] {
      assert NonEmpty(xs) + [] == NonEmpty(xs);
    }
  }

  /** The steps of a text: its `.`-separated pieces, stripped, empty ones dropped. */
  function Sentences(text: string): seq<string> {
    NonEmpty(StripEach(Split(text, '.')))
  }

  /** The result of `parse_text_plan`. */
  function Steps(plan: string): seq<string> {
    Sentences(PlanBody(plan))
  }

  /** The filtering loop of `parse_text_plan`: non-empty pieces are appended in turn. */
  method KeepNonEmpty(stripped: seq<string>) returns (steps: seq<string>)
    ensures steps == NonEmpty(stripped)
  {
    steps := [];
    for i := 0 to |stripped|
      invariant steps == NonEmpty(stripped[..i])
    {
      assert stripped[..i + 1] == stripped[..i] + [stripped[i]];
      NonEmptyKeeps(stripped[..i], stripped[i]);
      if stripped[i] != [] {
        steps := steps + [stripped[i]];
      }
    }
    assert stripped[..|stripped|] == stripped;
  }

  /** `parse_text_plan`. */
  method ParseTextPlan(plan: string) returns (steps: seq<string>)
    ensures steps == Steps(plan)
  {
    var body := plan;
    var k := Find(plan, SolutionPrefix);
    if k >= 0 {
      body := Strip(plan[k + |SolutionPrefix|..]);
    }
    steps := KeepNonEmpty(StripEach(Split(body, '.')));
  }

  /** Every step is non-empty, holds no `.` and has no surrounding whitespace. */
  lemma {:induction false} SentencesWellFormed(text: string, k: nat)
    requires k < |Sentences(text)|
    ensures Sentences(text)[k] != []
    ensures '.' !in Sentences(text)[k]
    ensures Strip(Sentences(text)[k]) == Sentences(text)[k]
  {
    var pieces := Split(text, '.');
    var stripped := StripEach(pieces);
    var x := Sentences(text)[k];
    assert x in stripped;
    var j :| 0 <= j < |stripped| && stripped[j] == x;
    assert x == Strip(pieces[j]);
    if '.' in x {
      StripKeeps(pieces[j], '.');
    }
    StripIdempotent(pieces[j]);
  }

  /** Steps joined with `.` are read back as the same steps, so nothing of a
      well-formed step is lost or merged with its neighbours. */
  lemma {:induction false} SentencesRoundTrip(steps: seq<string>)
    requires |steps| >= 1
    requires forall k :: 0 <= k < |steps| ==> steps[k] != [] && '.' !in steps[k]
    requires forall k :: 0 <= k < |steps| ==> Strip(steps[k]) == steps[k]
    ensures Sentences(Join(steps, '.')) == steps
  {
    SplitJoin(steps, '.');
    assert StripEach(steps) == steps;
  }

  /** Without the marker the whole plan is split. */
  lemma NoMarker(plan: string)
    requires Find(plan, SolutionPrefix) == -1
    ensures Steps(plan) == Sentences(plan)
  {
  }

  /** With the marker, everything up to and including its first occurrence is
      dropped, and the rest is stripped before it is split. */
  lemma {:induction false} MarkerCut(pre: string, post: string)
    requires forall j :: 0 <= j < |pre| ==> !OccursAt(pre + SolutionPrefix, SolutionPrefix, j)
    ensures Steps(pre + SolutionPrefix + post) == Sentences(Strip(post))
  {
    var s := pre + SolutionPrefix + post;
    var n := |SolutionPrefix|;
    assert s[|pre|..|pre| + n] == SolutionPrefix;
    forall j | 0 <= j < |pre|
      ensures !OccursAt(s, SolutionPrefix, j)
    {
      var t := pre + SolutionPrefix;
      assert s[..|t|] == t;
      assert j + n <= |t|;
      assert s[j..j + n] == t[j..j + n];
      assert !OccursAt(t, SolutionPrefix, j);
    }
    FindFirst(s, SolutionPrefix, |pre|);
    assert s[|pre| + n..] == post;
  }
}
