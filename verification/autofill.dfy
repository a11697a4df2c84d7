/**
 * The auto-fill controller (index.tsx:73-81): after every render, while
 * fewer than 24 titles are visible, fewer than 5 pages are wanted, and the
 * first page reports more results than 20 per wanted page, ask for one more
 * page. The effect itself, on the session's state, is MediaSlider.Session.AutoFill.
 */
module AutoFill {
  import opened Wrappers
  import opened Media
  import opened Aggregate

  /** Pages wanted when a session starts (index.tsx:49). */
  const InitialSize: nat := 2
  /** No more pages are asked for once this many are wanted. */
  const MaxSize: nat := 5
  /** Enough titles to fill the slider and its "show more" card. */
  const TargetVisible: nat := 24
  /** Results assumed per page. */
  const ResultsPerPage: nat := 20

  /** The first page's reported total, or 0 without data. */
  function FirstTotalResults(data: Option<Pages>): nat {
    if data.Some? then data.value[0].totalResults else 0
  }

  /**
   * The guard of the effect: it holds when fewer than 24 titles are visible,
   * fewer than 5 pages are wanted and the total exceeds 20 per wanted page;
   * it never holds once the total is used up (at most 20 per wanted page, in
   * particular with no results), at the ceiling, or with enough titles visible.
   */
  predicate ShouldGrow(visibleCount: nat, size: nat, totalResults: nat)
    ensures visibleCount < TargetVisible && size < MaxSize && totalResults > size * ResultsPerPage ==>
              ShouldGrow(visibleCount, size, totalResults)
    ensures totalResults <= size * ResultsPerPage ==> !ShouldGrow(visibleCount, size, totalResults)
    ensures size >= MaxSize ==> !ShouldGrow(visibleCount, size, totalResults)
    ensures visibleCount >= TargetVisible ==> !ShouldGrow(visibleCount, size, totalResults)
  {
    visibleCount < TargetVisible && size < MaxSize && totalResults > size * ResultsPerPage
  }

  /** What one render sees: how many titles are visible and the first page's total. */
  datatype Observation = Observation(visibleCount: nat, totalResults: nat)

  /**
   * One run of the effect: the size grows by one exactly when the guard
   * holds, and otherwise stays; from at most 5 it never passes 5.
   */
  function Step(size: nat, o: Observation): (r: nat)
    ensures size <= r <= size + 1
    ensures r > size <==> ShouldGrow(o.visibleCount, size, o.totalResults)
    ensures size <= MaxSize ==> r <= MaxSize
  {
    if ShouldGrow(o.visibleCount, size, o.totalResults) then size + 1 else size
  }

  /**
   * The effect run once per render, over the observations of successive
   * renders: whatever they observe, the size never drops, grows by at most
   * one per render, and from at most 5 stays at most 5.
   */
  function Run(size: nat, renders: seq<Observation>): (r: nat)
    ensures size <= r <= size + |renders|
    ensures size <= MaxSize ==> r <= MaxSize
    decreases |renders|
  {
    if renders == [] then size else Run(Step(size, renders[0]), renders[1..])
  }

  /** The same observation, n renders in a row. */
  function Repeat(o: Observation, n: nat): (r: seq<Observation>)
    ensures |r| == n
    ensures forall i :: 0 <= i < n ==> r[i] == o
  {
    if n == 0 then [] else [o] + Repeat(o, n - 1)
  }

  /**
   * When the preferences hide every received result and the first page
   * promises more than 20 per wanted page, the effect asks for another page
   * (below the ceiling).
   */
  lemma AllHiddenGrows(data: Option<Pages>, hideAvailable: bool, hideRequested: bool, size: nat)
    requires forall x :: x in FlattenPages(if data.Some? then data.value else []) ==>
               !Shown(x, hideAvailable, hideRequested)
    requires size < MaxSize && FirstTotalResults(data) > size * ResultsPerPage
    ensures Step(size, Observation(|Titles(data, hideAvailable, hideRequested)|, FirstTotalResults(data))) == size + 1
  {
  }

  /**
   * A render that sees the total used up (at most 20 per wanted page, so also
   * no results), or enough visible titles, leaves the size alone.
   */
  lemma StepIdleWithoutNeed(size: nat, o: Observation)
    ensures o.totalResults <= size * ResultsPerPage || o.visibleCount >= TargetVisible ==> Step(size, o) == size
  {
  }

  /**
   * Renders that see no data, a total used up at the current size (at most 20
   * per wanted page), or enough visible titles never change the size.
   */
  lemma {:induction false} RunIdleWithoutNeed(size: nat, renders: seq<Observation>)
    requires forall i :: 0 <= i < |renders| ==>
               renders[i].totalResults <= size * ResultsPerPage || renders[i].visibleCount >= TargetVisible
    ensures Run(size, renders) == size
    decreases |renders|
  {
    if renders != [] {
      RunIdleWithoutNeed(size, renders[1..]);
    }
  }

  /**
   * With the data unchanged, 5 - size renders reach a size at most 5 that the
   * effect leaves alone: the feedback loop settles.
   */
  lemma {:induction false} SteadyDataSettles(size: nat, o: Observation, n: nat)
    requires size <= MaxSize && n >= MaxSize - size
    ensures Run(size, Repeat(o, n)) <= MaxSize
    ensures Step(Run(size, Repeat(o, n)), o) == Run(size, Repeat(o, n))
    decreases n
  {
    if n > 0 {
      assert Repeat(o, n)[0] == o && Repeat(o, n)[1..] == Repeat(o, n - 1);
      if ShouldGrow(o.visibleCount, size, o.totalResults) {
        SteadyDataSettles(size + 1, o, n - 1);
      } else {
        RunStable(size, o, n - 1);
      }
    }
  }

  lemma {:induction false} RunStable(size: nat, o: Observation, n: nat)
    requires !ShouldGrow(o.visibleCount, size, o.totalResults)
    ensures Run(size, Repeat(o, n)) == size
    decreases n
  {
    if n > 0 {
      assert Repeat(o, n)[0] == o && Repeat(o, n)[1..] == Repeat(o, n - 1);
      RunStable(size, o, n - 1);
    }
  }
}
