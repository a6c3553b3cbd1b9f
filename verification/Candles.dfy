/** Candle pages: revisions and states of republished bars, and a subscriber that sees only the emitted
    pages. */
module Candles {
  import opened Machine

  type Id = string

  datatype CandleState = Open | Closed | Corrected

  datatype Body = Body(instrumentId: Id, interval: Id, openedAt: i64, open: int, high: int, low: int, close: int, volume: int)

  datatype Candle = Candle(body: Body, state: CandleState, revision: u64, freshness: int)

  datatype PageKey = PageKey(instrumentId: Id, interval: Id)

  datatype Page = Page(key: PageKey, candles: seq<Candle>)

  function NextRevision(revision: u64): u64 { if revision == U64_MAX then revision else revision + 1 }

  /** The revision and the state that an incoming bar gets from the stored bar of the same open time. */
  function Lifecycle(prior: Candle, incoming: Candle): Candle {
    var same := prior.body == incoming.body;
    match (prior.state, incoming.state)
    case (Open, Open) => incoming.(revision := if same then prior.revision else NextRevision(prior.revision))
    case (Open, _) => incoming.(revision := NextRevision(prior.revision), state := Closed)
    case (_, Open) => incoming.(revision := NextRevision(prior.revision), state := Corrected)
    case (_, _) =>
      if same then incoming.(revision := prior.revision, state := prior.state)
      else incoming.(revision := NextRevision(prior.revision), state := Corrected)
  }

  /** A bar never lowers its revision and never returns to open; a change of body or state below the
      ceiling always raises the revision. */
  lemma LifecycleOnlyAdvances(prior: Candle, incoming: Candle)
    ensures var after := Lifecycle(prior, incoming);
            && after.body == incoming.body && prior.revision <= after.revision
            && (after.state.Open? <==> prior.state.Open? && incoming.state.Open?)
            && (after.state.Closed? && !prior.state.Open? ==> after.body == prior.body && prior.state.Closed?)
            && (after.state.Corrected? ==> !prior.state.Open?)
            && (prior.revision < U64_MAX && (after.body != prior.body || after.state != prior.state) ==>
                  prior.revision < after.revision)
            && (after.body == prior.body && after.state == prior.state && incoming.state == prior.state ==>
                  after.revision == prior.revision)
  {}

  // ---- publishing a page ----

  function Prior(existing: seq<Candle>, openedAt: i64): Option<Candle> {
    if existing == [] then None
    else if existing[0].body.openedAt == openedAt then Some(existing[0]) else Prior(existing[1..], openedAt)
  }

  function Advanced(existing: seq<Candle>, incoming: Candle): Candle {
    var prior := Prior(existing, incoming.body.openedAt);
    if prior.None? then incoming else Lifecycle(prior.value, incoming)
  }

  predicate Differs(existing: seq<Candle>, incoming: Candle) {
    var prior := Prior(existing, incoming.body.openedAt);
    prior.None?
    || prior.value.revision != Lifecycle(prior.value, incoming).revision
    || prior.value.state != Lifecycle(prior.value, incoming).state
  }

  function Merged(existing: seq<Candle>, incoming: seq<Candle>): seq<Candle> {
    seq(|incoming|, i requires 0 <= i < |incoming| => Advanced(existing, incoming[i]))
  }

  predicate PageChanged(existing: seq<Candle>, incoming: seq<Candle>) {
    |existing| != |incoming| || exists i :: 0 <= i < |incoming| && Differs(existing, incoming[i])
  }

  datatype Projection = Projection(pages: map<PageKey, seq<Candle>>, emitted: seq<Page>)

  function Publish(p: Projection, page: Page): Projection {
    if page.key !in p.pages then
      Projection(p.pages[page.key := page.candles], p.emitted + [page])
    else
      var existing := p.pages[page.key];
      var merged := Merged(existing, page.candles);
      Projection(p.pages[page.key := merged],
                 if PageChanged(existing, page.candles) then p.emitted + [Page(page.key, merged)] else p.emitted)
  }

  class SnapshotMarketProjection {
    var pages: map<PageKey, seq<Candle>>
    var emitted: seq<Page>

    function View(): Projection reads this { Projection(pages, emitted) }

    constructor ()
      ensures View() == Projection(map[], [])
    {
      pages, emitted := map[], [];
    }

    method FindPrior(existing: seq<Candle>, openedAt: i64) returns (r: Option<Candle>)
      ensures r == Prior(existing, openedAt)
    {
      var rest := existing;
      while rest != []
        invariant Prior(existing, openedAt) == Prior(rest, openedAt)
        decreases |rest|
      {
        if rest[0].body.openedAt == openedAt { return Some(rest[0]); }
        rest := rest[1..];
      }
      return None;
    }

    method PublishCandles(page: Page)
      modifies this
      ensures View() == Publish(old(View()), page)
    {
      var candles := page.candles;
      var changed := page.key !in pages;
      if !changed {
        var existing := pages[page.key];
        changed := |existing| != |candles|;
        var i := 0;
        while i < |candles|
          invariant 0 <= i <= |candles| == |page.candles| && View() == old(View())
          invariant candles[..i] == Merged(existing, page.candles)[..i] && candles[i..] == page.candles[i..]
          invariant changed <==> |existing| != |candles| || exists j :: 0 <= j < i && Differs(existing, page.candles[j])
        {
          var prior := FindPrior(existing, candles[i].body.openedAt);
          if prior.Some? {
            var advanced := Lifecycle(prior.value, candles[i]);
            if prior.value.revision != advanced.revision || prior.value.state != advanced.state { changed := true; }
            candles := candles[i := advanced];
          } else {
            changed := true;
          }
          i := i + 1;
        }
        assert candles == Merged(existing, page.candles);
      }
      assert page.key !in pages ==> page == Page(page.key, candles);
      pages := pages[page.key := candles];
      if changed { emitted := emitted + [Page(page.key, candles)]; }
    }
  }

  // ---- the subscriber ----

  /** What a subscriber keeps of a bar. */
  datatype Bar = Bar(body: Body, state: CandleState, revision: u64)

  function BarOf(c: Candle): Bar { Bar(c.body, c.state, c.revision) }

  /** The bar that a lookup by open time finds: the first one listed for it. */
  function Bars(candles: seq<Candle>): map<i64, Bar> {
    map t | t in Times(candles) && Prior(candles, t).Some? :: BarOf(Prior(candles, t).value)
  }

  function Times(candles: seq<Candle>): set<i64> { set i | 0 <= i < |candles| :: candles[i].body.openedAt }

  /** A subscriber that replaces a page whenever one is emitted, and sees nothing else. */
  function Subscriber(emitted: seq<Page>): map<PageKey, map<i64, Bar>> {
    if emitted == [] then map[]
    else var last := emitted[|emitted| - 1];
      Subscriber(emitted[..|emitted| - 1])[last.key := Bars(last.candles)]
  }

  ghost predicate InSync(p: Projection) {
    var seen := Subscriber(p.emitted);
    seen.Keys == p.pages.Keys && forall k :: k in p.pages ==> seen[k] == Bars(p.pages[k])
  }

  // ---- lookups ----

  lemma {:induction false} PriorIsListed(candles: seq<Candle>, t: i64)
    ensures t in Times(candles) <==> Prior(candles, t).Some?
    ensures Prior(candles, t).Some? ==>
              exists i :: 0 <= i < |candles| && candles[i].body.openedAt == t && Prior(candles, t) == Some(candles[i])
  {
    if candles != [] {
      if candles[0].body.openedAt == t {
        assert t in Times(candles);
      } else {
        var rest := candles[1..];
        PriorIsListed(rest, t);
        if t in Times(candles) {
          var i :| 0 <= i < |candles| && candles[i].body.openedAt == t;
          assert rest[i - 1].body.openedAt == t;
        }
        if Prior(rest, t).Some? {
          var i :| 0 <= i < |rest| && rest[i].body.openedAt == t && Prior(rest, t) == Some(rest[i]);
          assert candles[i + 1] == rest[i];
        }
      }
    }
  }

  lemma BarAt(candles: seq<Candle>, t: i64)
    ensures t in Bars(candles) <==> Prior(candles, t).Some?
    ensures t in Bars(candles) ==> Bars(candles)[t] == BarOf(Prior(candles, t).value)
  {
    PriorIsListed(candles, t);
  }

  /** Looking a time up in the merged page finds the first incoming bar of that time, advanced. */
  lemma {:induction false} PriorOfMerged(existing: seq<Candle>, incoming: seq<Candle>, t: i64)
    ensures var first := Prior(incoming, t);
            Prior(Merged(existing, incoming), t) == if first.None? then None else Some(Advanced(existing, first.value))
  {
    if incoming != [] {
      assert Merged(existing, incoming)[0].body == incoming[0].body;
      assert Merged(existing, incoming)[1..] == Merged(existing, incoming[1..]);
      PriorOfMerged(existing, incoming[1..], t);
    }
  }

  // ---- publications that are not emitted ----

  /** The stored bar of that time has the highest revision and another body, so the change has no revision
      to show itself with. */
  predicate Hides(existing: seq<Candle>, incoming: Candle) {
    var prior := Prior(existing, incoming.body.openedAt);
    prior.Some? && prior.value.revision == U64_MAX && prior.value.body != incoming.body
  }

  /** The first bar that the page lists for some time hides a change. */
  predicate HidesChange(existing: seq<Candle>, incoming: seq<Candle>) {
    exists t :: t in Times(incoming) && Prior(incoming, t).Some? && Hides(existing, Prior(incoming, t).value)
  }

  /** A stored bar is not listed any more. */
  predicate Drops(existing: seq<Candle>, incoming: seq<Candle>) { !(Times(existing) <= Times(incoming)) }

  /** What an unchanged page does at a time that it lists. */
  lemma UnchangedBar(existing: seq<Candle>, incoming: seq<Candle>, t: i64)
    requires !PageChanged(existing, incoming) && t in Times(incoming)
    ensures Prior(incoming, t).Some? && t in Bars(existing) && t in Bars(Merged(existing, incoming))
    ensures Bars(Merged(existing, incoming))[t] == Bars(existing)[t] <==> !Hides(existing, Prior(incoming, t).value)
  {
    PriorIsListed(incoming, t);
    var i :| 0 <= i < |incoming| && incoming[i].body.openedAt == t && Prior(incoming, t) == Some(incoming[i]);
    assert !Differs(existing, incoming[i]);
    PriorOfMerged(existing, incoming, t);
    BarAt(existing, t);
    BarAt(Merged(existing, incoming), t);
    LifecycleOnlyAdvances(Prior(existing, t).value, incoming[i]);
  }

  /** A page that is not emitted leaves every bar as it was if and only if it drops none and hides no change. */
  lemma UnchangedPageKeepsBarsExactly(existing: seq<Candle>, incoming: seq<Candle>)
    requires !PageChanged(existing, incoming)
    ensures Bars(Merged(existing, incoming)) == Bars(existing) <==> !Drops(existing, incoming) && !HidesChange(existing, incoming)
  {
    var was, now := Bars(existing), Bars(Merged(existing, incoming));
    forall t ensures t in was <==> t in Times(existing) {
      BarAt(existing, t);
      PriorIsListed(existing, t);
    }
    forall t ensures t in now <==> t in Times(incoming) {
      BarAt(Merged(existing, incoming), t);
      PriorOfMerged(existing, incoming, t);
      PriorIsListed(incoming, t);
    }
    forall t | t in Times(incoming)
      ensures t in was && Prior(incoming, t).Some? && (now[t] == was[t] <==> !Hides(existing, Prior(incoming, t).value))
    {
      UnchangedBar(existing, incoming, t);
    }
  }

  lemma EmittedPageIsSeen(emitted: seq<Page>, page: Page)
    ensures Subscriber(emitted + [page]) == Subscriber(emitted)[page.key := Bars(page.candles)]
  {
    assert (emitted + [page])[..|emitted|] == emitted;
  }

  /** The publication is not emitted although it drops or changes a bar. */
  predicate Silenced(p: Projection, page: Page) {
    && page.key in p.pages && !PageChanged(p.pages[page.key], page.candles)
    && (Drops(p.pages[page.key], page.candles) || HidesChange(p.pages[page.key], page.candles))
  }

  lemma SyncAfterEmission(p: Projection, page: Page)
    requires InSync(p)
    ensures InSync(Projection(p.pages[page.key := page.candles], p.emitted + [page]))
  {
    EmittedPageIsSeen(p.emitted, page);
    var seen, after := Subscriber(p.emitted + [page]), p.pages[page.key := page.candles];
    forall k | k in after ensures k in seen && seen[k] == Bars(after[k]) {
      if k != page.key { assert after[k] == p.pages[k] && seen[k] == Subscriber(p.emitted)[k]; }
    }
  }

  lemma SyncAfterSilence(p: Projection, key: PageKey, candles: seq<Candle>)
    requires InSync(p) && key in p.pages
    ensures InSync(Projection(p.pages[key := candles], p.emitted)) <==> Bars(candles) == Bars(p.pages[key])
  {
    var seen, after := Subscriber(p.emitted), p.pages[key := candles];
    assert seen[key] == Bars(p.pages[key]) && after.Keys == p.pages.Keys;
    forall k | k in p.pages && k != key ensures seen[k] == Bars(after[k]) { assert after[k] == p.pages[k]; }
    if InSync(Projection(after, p.emitted)) { assert seen[key] == Bars(after[key]); }
  }

  /** A subscriber in sync stays in sync if and only if the publication is not silenced. */
  lemma PublishKeepsSyncExactly(p: Projection, page: Page)
    requires InSync(p)
    ensures InSync(Publish(p, page)) <==> !Silenced(p, page)
  {
    if page.key !in p.pages {
      SyncAfterEmission(p, page);
    } else {
      var existing := p.pages[page.key];
      var merged := Merged(existing, page.candles);
      if PageChanged(existing, page.candles) {
        SyncAfterEmission(p, Page(page.key, merged));
      } else {
        UnchangedPageKeepsBarsExactly(existing, page.candles);
        SyncAfterSilence(p, page.key, merged);
      }
    }
  }

  function PublishAll(pages: seq<Page>): Projection {
    if pages == [] then Projection(map[], []) else Publish(PublishAll(pages[..|pages| - 1]), pages[|pages| - 1])
  }

  /** In sync after every publication. */
  ghost predicate AlwaysInSync(pages: seq<Page>) {
    InSync(PublishAll(pages)) && (pages != [] ==> AlwaysInSync(pages[..|pages| - 1]))
  }

  predicate NeverSilenced(pages: seq<Page>) {
    pages != [] ==>
      var init := pages[..|pages| - 1];
      NeverSilenced(init) && !Silenced(PublishAll(init), pages[|pages| - 1])
  }

  /** A subscriber that applies only the emitted pages holds exactly the stored bars, states and revisions
      after every publication, if and only if no publication is silenced. */
  lemma {:induction false} SubscriberHoldsTheStore(pages: seq<Page>)
    ensures AlwaysInSync(pages) <==> NeverSilenced(pages)
  {
    if pages != [] {
      var init, last := pages[..|pages| - 1], pages[|pages| - 1];
      SubscriberHoldsTheStore(init);
      if AlwaysInSync(init) { PublishKeepsSyncExactly(PublishAll(init), last); }
    }
  }

  // ---- pages that list each time once ----

  predicate DistinctTimes(candles: seq<Candle>) {
    forall i, j :: 0 <= i < j < |candles| ==> candles[i].body.openedAt != candles[j].body.openedAt
  }

  lemma {:induction false} CountTimes(candles: seq<Candle>)
    ensures |Times(candles)| <= |candles|
    ensures DistinctTimes(candles) ==> |Times(candles)| == |candles|
  {
    if candles != [] {
      var init, last := candles[..|candles| - 1], candles[|candles| - 1];
      CountTimes(init);
      assert Times(candles) == Times(init) + {last.body.openedAt} by {
        assert forall i :: 0 <= i < |init| ==> init[i] == candles[i];
      }
    }
  }

  lemma {:induction false} SubsetOfSameSize(a: set<i64>, b: set<i64>)
    requires a <= b && |a| >= |b|
    ensures a == b
    decreases a
  {
    if a != {} {
      var t :| t in a;
      SubsetOfSameSize(a - {t}, b - {t});
      assert a == a - {t} + {t} && b == b - {t} + {t};
    }
  }

  /** A page that lists each time once is emitted if it drops a bar. */
  lemma DistinctPageDropsNothing(existing: seq<Candle>, incoming: seq<Candle>)
    requires DistinctTimes(incoming) && !PageChanged(existing, incoming)
    ensures !Drops(existing, incoming)
  {
    forall t | t in Times(incoming) ensures t in Times(existing) {
      UnchangedBar(existing, incoming, t);
      BarAt(existing, t);
      PriorIsListed(existing, t);
    }
    CountTimes(existing);
    CountTimes(incoming);
    SubsetOfSameSize(Times(incoming), Times(existing));
  }

  // ---- a bound that a publisher can keep ----

  predicate RevisionsAtMost(candles: seq<Candle>, bound: int) {
    forall i :: 0 <= i < |candles| ==> candles[i].revision <= bound
  }

  ghost predicate StoredAtMost(p: Projection, bound: int) { forall k :: k in p.pages ==> RevisionsAtMost(p.pages[k], bound) }

  /** A publication raises a stored revision by at most one. */
  lemma MergedAtMost(existing: seq<Candle>, incoming: seq<Candle>, bound: nat)
    requires RevisionsAtMost(existing, bound) && RevisionsAtMost(incoming, bound + 1)
    ensures RevisionsAtMost(Merged(existing, incoming), bound + 1)
  {
    forall i | 0 <= i < |incoming| ensures Merged(existing, incoming)[i].revision <= bound + 1 {
      PriorIsListed(existing, incoming[i].body.openedAt);
    }
  }

  lemma {:induction false} RevisionsGrowSlowly(pages: seq<Page>, bound: nat)
    requires forall i :: 0 <= i < |pages| ==> RevisionsAtMost(pages[i].candles, bound)
    ensures StoredAtMost(PublishAll(pages), bound + |pages|)
  {
    if pages != [] {
      var init, last := pages[..|pages| - 1], pages[|pages| - 1];
      RevisionsGrowSlowly(init, bound);
      var p := PublishAll(init);
      if last.key in p.pages { MergedAtMost(p.pages[last.key], last.candles, bound + |init|); }
    }
  }

  lemma NothingHiddenBelow(existing: seq<Candle>, incoming: seq<Candle>, bound: nat)
    requires RevisionsAtMost(existing, bound) && bound < U64_MAX
    ensures !HidesChange(existing, incoming)
  {
    forall t | t in Times(incoming) && Prior(incoming, t).Some? ensures !Hides(existing, Prior(incoming, t).value) {
      PriorIsListed(existing, Prior(incoming, t).value.body.openedAt);
    }
  }

  /** Some unchanged page of the run drops a stored bar. */
  predicate EverDrops(pages: seq<Page>) {
    && pages != []
    && var init, last := pages[..|pages| - 1], pages[|pages| - 1];
       var p := PublishAll(init);
       || EverDrops(init)
       || (last.key in p.pages && !PageChanged(p.pages[last.key], last.candles) && Drops(p.pages[last.key], last.candles))
  }

  lemma {:induction false} SilencedWithinBound(pages: seq<Page>, bound: nat)
    requires forall i :: 0 <= i < |pages| ==> RevisionsAtMost(pages[i].candles, bound)
    requires bound + |pages| <= U64_MAX
    ensures NeverSilenced(pages) <==> !EverDrops(pages)
  {
    if pages != [] {
      var init, page := pages[..|pages| - 1], pages[|pages| - 1];
      SilencedWithinBound(init, bound);
      RevisionsGrowSlowly(init, bound);
      var p := PublishAll(init);
      if page.key in p.pages { NothingHiddenBelow(p.pages[page.key], page.candles, bound + |init|); }
    }
  }

  lemma {:induction false} DistinctPagesNeverDrop(pages: seq<Page>)
    requires forall i :: 0 <= i < |pages| ==> DistinctTimes(pages[i].candles)
    ensures !EverDrops(pages)
  {
    if pages != [] {
      var init, last := pages[..|pages| - 1], pages[|pages| - 1];
      DistinctPagesNeverDrop(init);
      var p := PublishAll(init);
      if last.key in p.pages && !PageChanged(p.pages[last.key], last.candles) {
        DistinctPageDropsNothing(p.pages[last.key], last.candles);
      }
    }
  }

  /** If no published revision is above `bound`, and `bound` plus the number of publications stays within the
      highest revision, the subscriber is in sync unless a page drops a bar; pages that list each time once
      never do. */
  lemma SubscriberHoldsTheStoreWithinBound(pages: seq<Page>, bound: nat)
    requires forall i :: 0 <= i < |pages| ==> RevisionsAtMost(pages[i].candles, bound)
    requires bound + |pages| <= U64_MAX
    ensures AlwaysInSync(pages) <==> !EverDrops(pages)
    ensures (forall i :: 0 <= i < |pages| ==> DistinctTimes(pages[i].candles)) ==> AlwaysInSync(pages)
  {
    SilencedWithinBound(pages, bound);
    SubscriberHoldsTheStore(pages);
    if forall i :: 0 <= i < |pages| ==> DistinctTimes(pages[i].candles) { DistinctPagesNeverDrop(pages); }
  }

  // ---- republishing ----

  /** Every bar agrees with the first one listed for its time, up to a hidden change. */
  predicate Settled(candles: seq<Candle>) {
    forall i :: 0 <= i < |candles| ==> Repeats(Prior(candles, candles[i].body.openedAt), candles[i])
  }

  predicate Repeats(first: Option<Candle>, c: Candle) {
    && first.Some? && first.value.revision == c.revision && first.value.state == c.state
    && (first.value.body == c.body || (c.revision == U64_MAX && !c.state.Closed?))
  }

  lemma RepeatedBar(existing: seq<Candle>, c: Candle)
    ensures Repeats(Prior(existing, c.body.openedAt), c) <==> Advanced(existing, c) == c && !Differs(existing, c)
  {}

  lemma {:induction false} PriorOfStoredBar(existing: seq<Candle>, i: nat)
    requires DistinctTimes(existing) && i < |existing|
    ensures Prior(existing, existing[i].body.openedAt) == Some(existing[i])
  {
    if i > 0 {
      assert existing[i] == existing[1..][i - 1];
      PriorOfStoredBar(existing[1..], i - 1);
    }
  }

  /** Publishing the stored page once more changes nothing and emits nothing, if and only if the page is
      settled; a page that lists each time once is. */
  lemma RepublishedPageIsSilent(p: Projection, key: PageKey)
    requires key in p.pages
    ensures Publish(p, Page(key, p.pages[key])) == p <==> Settled(p.pages[key])
    ensures DistinctTimes(p.pages[key]) ==> Settled(p.pages[key])
  {
    var existing := p.pages[key];
    var after := Publish(p, Page(key, existing));
    forall i | 0 <= i < |existing|
      ensures Repeats(Prior(existing, existing[i].body.openedAt), existing[i]) <==>
                Merged(existing, existing)[i] == existing[i] && !Differs(existing, existing[i])
    {
      RepeatedBar(existing, existing[i]);
    }
    if Settled(existing) {
      assert Merged(existing, existing) == existing;
      assert p.pages[key := existing] == p.pages;
    }
    if DistinctTimes(existing) {
      forall i | 0 <= i < |existing| ensures Repeats(Prior(existing, existing[i].body.openedAt), existing[i]) {
        PriorOfStoredBar(existing, i);
      }
    }
  }

  // ---- the failing inputs ----

  /** At the ceiling the promise fails: a changed bar keeps its revision, so nothing is emitted. */
  lemma SaturatedRevisionHidesChange(body: Body, other: Body, key: PageKey)
    requires body.openedAt == other.openedAt && body != other
    ensures var first := Page(key, [Candle(body, Open, U64_MAX, 0)]);
            var second := Page(key, [Candle(other, Open, U64_MAX, 0)]);
            InSync(PublishAll([first])) && !InSync(PublishAll([first, second]))
  {
    var was, now := Candle(body, Open, U64_MAX, 0), Candle(other, Open, U64_MAX, 0);
    OnePage(Page(key, [was]));
    TwoPages(Page(key, [was]), Page(key, [now]));
    assert Prior([was], other.openedAt) == Some(was) && Prior([now], other.openedAt) == Some(now);
    assert !Differs([was], now) && !PageChanged([was], [now]);
    assert [now][0].body.openedAt in Times([now]);
    assert HidesChange([was], [now]);
  }

  lemma OnePage(first: Page)
    ensures PublishAll([first]) == Projection(map[first.key := first.candles], [first]) && InSync(PublishAll([first]))
  {
    assert [first][..0] == [];
    PublishKeepsSyncExactly(PublishAll([]), first);
  }

  lemma TwoPages(first: Page, second: Page)
    requires first.key == second.key
    ensures PublishAll([first, second]) == Publish(PublishAll([first]), second)
    ensures InSync(PublishAll([first, second])) <==> !Silenced(PublishAll([first]), second)
  {
    assert [first, second][..1] == [first];
    OnePage(first);
    PublishKeepsSyncExactly(PublishAll([first]), second);
  }

  /** A page that repeats an open time can drop a bar unnoticed: nothing in it differs from what is stored,
      and it is as long as the stored page. */
  lemma RepeatedTimeLosesBar(key: PageKey, a: Candle, b: Candle)
    requires a.body.openedAt != b.body.openedAt
    ensures var first, second := Page(key, [a, b]), Page(key, [a, a]);
            && InSync(PublishAll([first])) && PublishAll([first, second]).emitted == PublishAll([first]).emitted
            && b.body.openedAt !in Bars(PublishAll([first, second]).pages[key])
            && !InSync(PublishAll([first, second]))
  {
    var first, second := Page(key, [a, b]), Page(key, [a, a]);
    OnePage(first);
    TwoPages(first, second);
    RepeatedBarIsUnchanged(a, b);
    PairDrops(a, b);
    BarAt([a, a], b.body.openedAt);
  }

  lemma RepeatedBarIsUnchanged(a: Candle, b: Candle)
    ensures !PageChanged([a, b], [a, a]) && Merged([a, b], [a, a]) == [a, a]
  {
    assert Prior([a, b], a.body.openedAt) == Some(a);
    assert Advanced([a, b], a) == a && !Differs([a, b], a);
  }

  lemma PairDrops(a: Candle, b: Candle)
    requires a.body.openedAt != b.body.openedAt
    ensures Drops([a, b], [a, a]) && Prior([a, a], b.body.openedAt).None?
  {
    assert [a, b][1].body.openedAt in Times([a, b]);
    assert [a, a][1..] == [a] && [a][1..] == [];
    PriorIsListed([a, a], b.body.openedAt);
  }
}
