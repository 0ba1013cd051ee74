/** Instants at least a gap apart, and how many of them fit into a window. */
module Spacing {

  ghost predicate SpacedBy(ts: seq<int>, gap: int) {
    forall i, j :: 0 <= i < j < |ts| ==> ts[i] + gap <= ts[j]
  }

  lemma SpacedAppend(ts: seq<int>, gap: nat, t: int)
    requires SpacedBy(ts, gap) && (ts == [] || ts[|ts| - 1] + gap <= t)
    ensures SpacedBy(ts + [t], gap)
  {
    forall i | 0 <= i < |ts| ensures ts[i] + gap <= t {
      assert i < |ts| - 1 ==> ts[i] + gap <= ts[|ts| - 1];
    }
  }

  /** The elements of `ts` in the closed window from `from` to `to`. */
  function Within(ts: seq<int>, from: int, to: int): seq<int> {
    if ts == [] then []
    else
      var last := ts[|ts| - 1];
      Within(ts[..|ts| - 1], from, to) + if from <= last <= to then [last] else []
  }

  lemma {:induction false} WithinMembers(ts: seq<int>, from: int, to: int)
    ensures forall t :: t in Within(ts, from, to) <==> t in ts && from <= t <= to
  {
    if ts != [] {
      WithinMembers(ts[..|ts| - 1], from, to);
      assert ts == ts[..|ts| - 1] + [ts[|ts| - 1]];
    }
  }

  lemma {:induction false} WithinSpaced(ts: seq<int>, gap: int, from: int, to: int)
    requires SpacedBy(ts, gap)
    ensures SpacedBy(Within(ts, from, to), gap)
  {
    if ts != [] {
      var front := ts[..|ts| - 1];
      WithinSpaced(front, gap, from, to);
      WithinMembers(front, from, to);
      var w := Within(front, from, to);
      forall i | 0 <= i < |w| ensures w[i] + gap <= ts[|ts| - 1] {
        assert w[i] in w;
        var k :| 0 <= k < |front| && front[k] == w[i];
        assert ts[k] + gap <= ts[|ts| - 1];
      }
    }
  }

  /** The least time that `n` further instants at a distance of `gap` take. */
  function Span(n: int, gap: int): int {
    n * gap
  }

  lemma SpanStep(n: int, gap: int)
    ensures Span(0, gap) == 0 && Span(n + 1, gap) == Span(n, gap) + gap
  {
    assert (n + 1) * gap == n * gap + gap;
  }

  lemma {:induction false} Spread(ts: seq<int>, gap: int)
    requires SpacedBy(ts, gap) && ts != []
    ensures ts[0] + Span(|ts| - 1, gap) <= ts[|ts| - 1]
    decreases |ts|
  {
    hide Span;
    SpanStep(|ts| - 2, gap);
    if |ts| > 1 {
      Spread(ts[..|ts| - 1], gap);
    }
  }

  lemma SpanWithin(ts: seq<int>, gap: int, from: int, w: int)
    requires SpacedBy(ts, gap) && w >= 0 && Within(ts, from, from + w) != []
    ensures Span(|Within(ts, from, from + w)| - 1, gap) <= w
  {
    hide Span, Within, SpacedBy;
    var inside := Within(ts, from, from + w);
    WithinSpaced(ts, gap, from, from + w);
    WithinMembers(ts, from, from + w);
    Spread(inside, gap);
    assert inside[0] in inside && inside[|inside| - 1] in inside;
  }

  /** A window of length `w` holds at most floor(w / gap) + 1 instants spaced by `gap`. */
  lemma WindowBound(ts: seq<int>, gap: int, from: int, w: int)
    requires SpacedBy(ts, gap) && gap > 0 && w >= 0
    ensures |Within(ts, from, from + w)| <= w / gap + 1
  {
    hide Span, Within, SpacedBy;
    QuotientBound(0, gap, w);
    if Within(ts, from, from + w) != [] {
      SpanWithin(ts, gap, from, w);
      QuotientBound(|Within(ts, from, from + w)| - 1, gap, w);
    }
  }

  lemma SpanMonotone(m: int, n: int, gap: int)
    requires m <= n && gap > 0
    ensures Span(m, gap) <= Span(n, gap)
  {
    assert n * gap - m * gap == (n - m) * gap;
  }

  /** More than floor(w / gap) gaps do not fit into `w`. */
  lemma QuotientBound(n: nat, gap: int, w: int)
    requires gap > 0 && w >= 0
    ensures 0 <= w / gap && (w / gap < n ==> w < Span(n, gap))
  {
    assert w < Span(w / gap + 1, gap);
    hide Span;
    if w / gap < n {
      SpanMonotone(w / gap + 1, n, gap);
    }
  }
}
