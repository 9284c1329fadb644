/** Two ways to serve a page: cut in the store before summarising, or after. */
module Paging {
  import opened Common
  import opened Ordering
  import opened MetricTypes
  import opened Trends
  import opened Health

  function Clamped(offset: int, length: nat): nat {
    var offset := if offset < 0 then 0 else offset;
    if offset > length then length else offset
  }

  /** paginate: everything from the offset without a limit, else a page and whether more follow. */
  function Paginate<T>(list: seq<T>, limit: int, offset: int): (seq<T>, bool) {
    var start := Clamped(offset, |list|);
    if limit <= 0 then (list[start..], false)
    else
      var end := Clamped(start + limit, |list|);
      (list[start..end], |list| > end)
  }

  /** SQL's OFFSET: a negative one skips nothing. */
  function Offset<T>(s: seq<T>, offset: int): seq<T> {
    s[Clamped(offset, |s|)..]
  }

  /** The store's page: one row more than asked for says whether another page exists. */
  function StorePage<T>(matching: seq<T>, limit: int, offset: int): (seq<T>, bool) {
    if limit <= 0 then (matching, false)
    else
      var rows := Limit(Offset(matching, offset), limit + 1);
      if |rows| > limit then (rows[..limit], true) else (rows, false)
  }

  method ListPipelines(matching: seq<PipelineRef>, limit: int, offset: int)
    returns (refs: seq<PipelineRef>, hasMore: bool)
    ensures (refs, hasMore) == StorePage(matching, limit, offset)
    ensures limit > 0 ==> var start := if offset < 0 then 0 else if offset < |matching| then offset else |matching|;
                          && |refs| <= limit && refs <= matching[start..]
                          && (hasMore <==> |matching| - start > |refs|) && (hasMore ==> |refs| == limit)
    ensures limit <= 0 ==> refs == matching && !hasMore
  {
    var rows := if limit > 0 then Limit(Offset(matching, offset), limit + 1) else matching;
    refs := [];
    var i := 0;
    while i < |rows|
      invariant 0 <= i <= |rows| && refs == rows[..i]
    {
      refs := refs + [rows[i]];
      i := i + 1;
    }
    assert refs == rows;
    hasMore := limit > 0 && |refs| > limit;
    if hasMore {
      refs := refs[..limit];
    }
  }

  function Map<S, T>(s: seq<S>, f: S -> T): seq<T> {
    seq(|s|, i requires 0 <= i < |s| => f(s[i]))
  }

  /**
  Paging in the store and then summarising gives the page that summarising everything and then
  paging gives, and the same hasMore, except that without a limit only the latter looks at the
  offset.
  */
  lemma PagingCommutes<S, T>(matching: seq<S>, summarise: S -> T, limit: int, offset: int)
    ensures var (refs, more) := StorePage(matching, limit, offset);
            var (page, hasMore) := Paginate(Map(matching, summarise), limit, offset);
            more == hasMore && (Map(refs, summarise) == page <==> limit > 0 || offset <= 0 || matching == [])
  {
    var (refs, more) := StorePage(matching, limit, offset);
    var all := Map(matching, summarise);
    var start := Clamped(offset, |matching|);
    if limit > 0 {
      var end := Clamped(start + limit, |matching|);
      assert refs == matching[start..end];
      assert Map(refs, summarise) == all[start..end];
    } else {
      assert |all[start..]| == |matching| - start;
      assert start == 0 ==> all[start..] == all;
    }
  }

  /** All pages from an offset on, up to the first that reports no more. */
  function Walk<T>(list: seq<T>, limit: int, offset: nat): seq<T>
    requires limit > 0
    decreases if offset < |list| then |list| - offset else 0
  {
    var (page, hasMore) := Paginate(list, limit, offset);
    if hasMore then page + Walk(list, limit, offset + limit) else page
  }

  /** Turning pages until there are no more reads the whole list, each element once and in order. */
  lemma {:induction false} WalkReadsAll<T>(list: seq<T>, limit: int, offset: nat)
    requires limit > 0 && offset <= |list|
    ensures Walk(list, limit, offset) == list[offset..]
    decreases |list| - offset
  {
    if |list| > offset + limit {
      WalkReadsAll(list, limit, offset + limit);
      assert list[offset..offset + limit] + list[offset + limit..] == list[offset..];
    }
  }

  /** The slicing ListUnhealthySteps does itself agrees with paginate for the offsets it takes. */
  lemma UnhealthyStepsPage<T>(groups: seq<T>, limit: int, offset: nat)
    requires limit > 0
    ensures var start := if offset < |groups| then offset else |groups|;
            var end := if start + limit < |groups| then start + limit else |groups|;
            Paginate(groups, limit, offset) == (groups[start..end], |groups| > start + limit)
  {
  }

  datatype Pipeline = Pipeline(ref: PipelineRef, status: Status, lastRunAt: Option<int>)

  /** Latest run first; pipelines with no runs last. */
  predicate RanLater(a: Pipeline, b: Pipeline) {
    b.lastRunAt.None? || (a.lastRunAt.Some? && a.lastRunAt.value >= b.lastRunAt.value)
  }

  lemma RanLaterTotal()
    ensures TotalPreorder(RanLater)
  {
  }

  function Wanted(health: Option<Status>): Pipeline -> bool {
    (p: Pipeline) => health.None? || p.status == health.value
  }

  /** The whole filtered list in the order asked for, before paging. */
  function Arranged(pipelines: seq<Pipeline>, health: Option<Status>, byLastRun: bool): seq<Pipeline> {
    var kept := Filter(pipelines, Wanted(health));
    if byLastRun then StableSort(RanLater, kept) else kept
  }

  method ListAcrossPipelines(
    refs: seq<PipelineRef>, summarise: PipelineRef -> Pipeline, health: Option<Status>, byLastRun: bool,
    limit: int, offset: int) returns (page: seq<Pipeline>, hasMore: bool)
    ensures (page, hasMore) == Paginate(Arranged(Map(refs, summarise), health, byLastRun), limit, offset)
  {
    var pipelines: seq<Pipeline> := [];
    NoSummaries(summarise, health);
    var i := 0;
    while i < |refs|
      invariant 0 <= i <= |refs|
      invariant pipelines == Filter(Map(refs[..i], summarise), Wanted(health))
    {
      var p := summarise(refs[i]);
      OneMoreSummary(refs, summarise, health, i);
      hide Filter;
      hide Map;
      if health.None? || p.status == health.value {
        pipelines := pipelines + [p];
      }
      i := i + 1;
    }
    assert refs[..i] == refs;
    hide Filter;
    hide Map;
    hide StableSort;
    if byLastRun {
      RanLaterTotal();
      hide RanLater;
      pipelines := SortStable(RanLater, pipelines);
    }
    var cut := Paginate(pipelines, limit, offset);
    page, hasMore := cut.0, cut.1;
  }

  lemma NoSummaries(summarise: PipelineRef -> Pipeline, health: Option<Status>)
    ensures Filter(Map([], summarise), Wanted(health)) == []
  {
  }

  lemma OneMoreSummary(refs: seq<PipelineRef>, summarise: PipelineRef -> Pipeline, health: Option<Status>, i: nat)
    requires i < |refs|
    ensures var p := summarise(refs[i]);
            Filter(Map(refs[..i + 1], summarise), Wanted(health)) ==
            Filter(Map(refs[..i], summarise), Wanted(health))
            + if health.None? || p.status == health.value then [p] else []
  {
    var p := summarise(refs[i]);
    assert Map(refs[..i + 1], summarise) == Map(refs[..i], summarise) + [p];
    FilterMore(Map(refs[..i], summarise), Wanted(health), p);
  }

  /** Sorted by last run, pipelines that last ran at the same instant keep the store's order. */
  lemma TiesKeepStoreOrder(pipelines: seq<Pipeline>, health: Option<Status>, at: Option<int>)
    ensures var sorted := Arranged(pipelines, health, true);
            && Sorted(RanLater, sorted)
            && Filter(sorted, (p: Pipeline) => p.lastRunAt == at) ==
               Filter(Arranged(pipelines, health, false), (p: Pipeline) => p.lastRunAt == at)
  {
    RanLaterTotal();
    StableSortSorts(RanLater, Filter(pipelines, Wanted(health)));
    StableSortIsStable(RanLater, Filter(pipelines, Wanted(health)), (p: Pipeline) => p.lastRunAt == at);
  }

  /**
  The list before paging: the summaries with the health asked for, all of them and in the store's order
  or, if that is asked for, the one that ran last first and those that never ran at the end.
  */
  lemma ArrangedReads(pipelines: seq<Pipeline>, health: Option<Status>, byLastRun: bool)
    ensures var list := Arranged(pipelines, health, byLastRun);
            && (forall p: Pipeline :: multiset(list)[p] ==
                            if health.None? || p.status == health.value then multiset(pipelines)[p] else 0)
            && (byLastRun ==> forall i, j :: 0 <= i < j < |list| ==>
                  var a, b := list[i].lastRunAt, list[j].lastRunAt; b.None? || (a.Some? && a.value >= b.value))
  {
    var kept, list := Filter(pipelines, Wanted(health)), Arranged(pipelines, health, byLastRun);
    RanLaterTotal();
    StableSortSorts(RanLater, kept);
    FilterBag(pipelines, Wanted(health));
    assert multiset(list) == multiset(kept);
    assert byLastRun ==> forall i, j :: 0 <= i < j < |list| ==> RanLater(list[i], list[j]);
    hide StableSort;
    hide Filter;
  }

  lemma StoreOrderKept(pipelines: seq<Pipeline>, health: Option<Status>) returns (at: seq<nat>)
    ensures StandsAt(Arranged(pipelines, health, false), pipelines, at)
  {
    at := FilterKeeps(pipelines, Wanted(health));
  }

  /** A page is the list from the offset on, up to the limit if there is one; more follow if that is not its end. */
  lemma PageReads<T>(all: seq<T>, limit: int, offset: int)
    ensures var start := if offset < 0 then 0 else if offset < |all| then offset else |all|;
            var end := if limit > 0 && start + limit < |all| then start + limit else |all|;
            Paginate(all, limit, offset) == (all[start..end], end < |all|)
  {
    var start := Clamped(offset, |all|);
    assert all[start..|all|] == all[start..];
  }
}
