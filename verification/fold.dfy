/** The driver loop shared by every script: for each input file, skip it when
    it cannot be opened or has no `Events` tree, otherwise run the per-event
    body over its events in entry order. A readable source is modelled as
    `Some(events)`, an unreadable one as `None`. */
module Fold {
  import opened Optional

  /** Runs `step` over `xs` from the first event to the last. */
  function FoldEvents<A, E>(step: (A, E) -> A, acc: A, xs: seq<E>): A
    decreases |xs|
  {
    if |xs| == 0 then acc
    else step(FoldEvents(step, acc, xs[..|xs| - 1]), xs[|xs| - 1])
  }

  /** Runs `step` over every readable source in order, skipping the others. */
  function FoldSources<A, E>(step: (A, E) -> A, acc: A, sources: seq<Option<seq<E>>>): A
    decreases |sources|
  {
    if |sources| == 0 then acc
    else match sources[0]
      case None => FoldSources(step, acc, sources[1..])
      case Some(events) => FoldSources(step, FoldEvents(step, acc, events), sources[1..])
  }

  /** The events of all readable sources, source after source. */
  function Readable<E>(sources: seq<Option<seq<E>>>): seq<E>
    decreases |sources|
  {
    if |sources| == 0 then []
    else
      (match sources[0] case None => [] case Some(events) => events)
      + Readable(sources[1..])
  }

  /** Processing two runs of events back to back is processing their
      concatenation: the loop carries nothing but the accumulators. */
  lemma {:induction false} FoldEventsAppend<A, E>(step: (A, E) -> A, acc: A, xs: seq<E>, ys: seq<E>)
    ensures FoldEvents(step, acc, xs + ys) == FoldEvents(step, FoldEvents(step, acc, xs), ys)
    decreases |ys|
  {
    if |ys| == 0 {
      assert xs + ys == xs;
    } else {
      var n := |ys| - 1;
      assert (xs + ys)[..|xs + ys| - 1] == xs + ys[..n];
      FoldEventsAppend(step, acc, xs, ys[..n]);
    }
  }

  lemma {:induction false} ReadableAppend<E>(a: seq<Option<seq<E>>>, b: seq<Option<seq<E>>>)
    ensures Readable(a + b) == Readable(a) + Readable(b)
    decreases |a|
  {
    if |a| == 0 {
      assert a + b == b;
    } else {
      assert (a + b)[1..] == a[1..] + b;
      ReadableAppend(a[1..], b);
    }
  }

  /** A run over several sources is one run over the events of the readable
      sources, in source order. */
  lemma {:induction false} FoldSourcesIsFoldOfReadable<A, E>(step: (A, E) -> A, acc: A, sources: seq<Option<seq<E>>>)
    ensures FoldSources(step, acc, sources) == FoldEvents(step, acc, Readable(sources))
    decreases |sources|
  {
    if |sources| > 0 {
      match sources[0]
      case None =>
        assert Readable(sources) == [] + Readable(sources[1..]);
        assert [] + Readable(sources[1..]) == Readable(sources[1..]);
        FoldSourcesIsFoldOfReadable(step, acc, sources[1..]);
      case Some(events) =>
        FoldSourcesIsFoldOfReadable(step, FoldEvents(step, acc, events), sources[1..]);
        FoldEventsAppend(step, acc, events, Readable(sources[1..]));
    }
  }

  /** An unreadable file, or one without an `Events` tree, wherever it sits in
      the listing, leaves every accumulator as if it were not there. */
  lemma SkippedSourceContributesNothing<A, E>(step: (A, E) -> A, acc: A, before: seq<Option<seq<E>>>, after: seq<Option<seq<E>>>)
    ensures FoldSources(step, acc, before + [None] + after) == FoldSources(step, acc, before + after)
  {
    ReadableAppend(before + [None], after);
    ReadableAppend(before, [None]);
    assert before + [None] + after == (before + [None]) + after;
    ReadableAppend(before, after);
    var none: seq<Option<seq<E>>> := [None];
    assert Readable(none) == [] + Readable(none[1..]);
    assert Readable(before + none) == Readable(before);
    FoldSourcesIsFoldOfReadable(step, acc, before + [None] + after);
    FoldSourcesIsFoldOfReadable(step, acc, before + after);
  }
}
