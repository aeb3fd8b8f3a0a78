/** The Stocks screen's basket selection: projecting a fetched basket page to
    dropdown options, reconciling those options with the persisted selection,
    mirroring the store into the screen's local copy, the stock query that
    copy scopes, the dropdown pick, and the empty-basket gating of the view.
    React effects are modelled as functions applied to a snapshot. */
module PortfolioStocks {
  import opened Maybes
  import opened PortfolioTypes

  // ---------------------------------------------------------------------
  // Projection of a basket page to dropdown options
  // ---------------------------------------------------------------------

  /** The option a basket is shown as: its name as label, its id as value. */
  function OptionOf(b: Basket): BasketOpt {
    BasketOpt(Just(b.basketName), Just(b.id))
  }

  /** Maps every basket of a page to its option, in page order. */
  function Project(baskets: seq<Basket>): (r: seq<BasketOpt>)
    ensures |r| == |baskets|
    ensures forall i :: 0 <= i < |baskets| ==>
              r[i].caption == Just(baskets[i].basketName) && r[i].value == Just(baskets[i].id)
  {
    if |baskets| == 0 then []
    else [OptionOf(baskets[0])] + Project(baskets[1..])
  }

  /** Projecting a concatenation of pages is concatenating their projections. */
  lemma ProjectAppend(a: seq<Basket>, b: seq<Basket>)
    ensures Project(a + b) == Project(a) + Project(b)
  {
  }

  // ---------------------------------------------------------------------
  // Reconciliation of the options with the stored selection
  // ---------------------------------------------------------------------

  /** `selectedBasketOption?.value`: the stored value, undefined when the
      store itself is undefined. */
  function StoredValue(stored: Store): (r: Maybe<string>)
    ensures stored.Nothing? ==> r.Nothing?
    ensures stored.Just? ==> r == stored.value.value
  {
    match stored
    case Nothing => Nothing
    case Just(o) => o.value
  }

  /** `options.find(item => item.value === v)`, as the position of the first
      option whose value is `v` (strict equality on `string | undefined`). */
  function Find(options: seq<BasketOpt>, v: Maybe<string>): (r: Maybe<nat>)
    ensures r.Just? ==> r.value < |options| && options[r.value].value == v
    ensures r.Just? ==> forall j :: 0 <= j < r.value ==> options[j].value != v
    ensures r.Nothing? <==> forall j :: 0 <= j < |options| ==> options[j].value != v
  {
    if |options| == 0 then Nothing
    else if options[0].value == v then Just(0)
    else match Find(options[1..], v)
      case Nothing => Nothing
      case Just(k) => Just(k + 1)
  }

  /** A stored id is found among a page's options exactly when some basket
      on that page has that id; an undefined stored value is never found. */
  lemma FoundIffOnPage(baskets: seq<Basket>, v: Maybe<string>)
    ensures Find(Project(baskets), v).Just? <==>
              v.Just? && exists i :: 0 <= i < |baskets| && baskets[i].id == v.value
  {
  }

  /** `result[0]`: the first option, undefined for an empty page. */
  function First(options: seq<BasketOpt>): (r: Maybe<BasketOpt>)
    ensures |options| == 0 <==> r.Nothing?
    ensures |options| > 0 ==> r == Just(options[0])
  {
    if |options| == 0 then Nothing else Just(options[0])
  }

  /** What one reconciliation run does to the store. */
  datatype StoreWrite = Keep | Overwrite(selection: Store)

  /** The decision of the reconciliation effect: write `result[0]` only when
      no option carries the stored value and that value is exactly `''`. */
  function Reconcile(options: seq<BasketOpt>, stored: Store): (w: StoreWrite)
    ensures w.Overwrite? <==>
              (forall j :: 0 <= j < |options| ==> options[j].value != StoredValue(stored))
              && stored.Just? && stored.value.value == Just("")
    ensures w.Overwrite? && |options| > 0 ==> w.selection == Just(options[0])
    ensures w.Overwrite? && |options| == 0 ==> w.selection.Nothing?
  {
    if Find(options, StoredValue(stored)).Nothing? && StoredValue(stored) == Just("") then
      Overwrite(First(options))
    else
      Keep
  }

  /** The store after a write decision. */
  function Apply(w: StoreWrite, stored: Store): Store {
    match w
    case Keep => stored
    case Overwrite(sel) => sel
  }

  /** A store whose value is not the `''` sentinel is never written by
      reconciliation, whatever page arrives: not when its basket is missing
      from the page (non-eviction), not when the store or its value is
      undefined (never-set is not auto-filled), not when its basket is
      present (the possibly stale label is kept). */
  lemma NonEviction(options: seq<BasketOpt>, stored: Store)
    requires StoredValue(stored) != Just("")
    ensures Reconcile(options, stored) == Keep
    ensures Apply(Reconcile(options, stored), stored) == stored
  {
  }

  /** The value a reconciliation writes is never the `''` sentinel. */
  lemma WrittenIsNotSentinel(options: seq<BasketOpt>, stored: Store)
    requires Reconcile(options, stored).Overwrite?
    ensures StoredValue(Apply(Reconcile(options, stored), stored)) != Just("")
  {
  }

  /** Reconciling a second time against the same options performs no write. */
  lemma ReconcileIdempotent(options: seq<BasketOpt>, stored: Store)
    ensures Reconcile(options, Apply(Reconcile(options, stored), stored)) == Keep
  {
  }

  // ---------------------------------------------------------------------
  // The screen snapshot and its effects
  // ---------------------------------------------------------------------

  /** The parts of the Stocks screen the selection logic reads and writes:
      the dropdown options, the persisted store, the local selected copy,
      the shared page number, the basket search term, and the basket data
      the basket query last delivered (undefined while it has none). */
  datatype Screen = Screen(
    options: seq<BasketOpt>,
    store: Store,
    local: Store,
    currentPage: string,
    searchTerm: string,
    basketsData: Maybe<BasketPage>)

  /** The first render, before any effect has run: no options, the
      persisted store as found, no local selection yet, page '1', empty
      search, no basket data. Its stock query is therefore unscoped. */
  function FirstRender(persisted: Store): (s: Screen)
    ensures s.store == persisted && s.local.Nothing? && s.basketsData.Nothing?
    ensures s.options == [] && s.currentPage == "1" && s.searchTerm == ""
    ensures StocksQueryOf(s).basketId == ""
  {
    Screen([], persisted, Nothing, "1", "", Nothing)
  }

  /** The screen once mounted: the mirror effect's first run has copied the
      persisted store into the local selection; nothing else has moved. */
  function Mount(persisted: Store): (s: Screen)
    ensures s.local == s.store == persisted
    ensures s.options == [] && s.currentPage == "1" && s.searchTerm == "" && s.basketsData.Nothing?
  {
    Mirror(FirstRender(persisted))
  }

  /** The basket-data effect: nothing while no data has arrived; otherwise
      the options become the page's projection and the store takes the
      reconciliation's write. */
  function BasketsEffect(basketsData: Maybe<BasketPage>, s: Screen): (r: Screen)
    ensures basketsData.Nothing? ==> r == s
    ensures basketsData.Just? ==> r.options == Project(basketsData.value.data)
    ensures basketsData.Just? ==> r.store == Apply(Reconcile(r.options, s.store), s.store)
    ensures r.local == s.local && r.currentPage == s.currentPage && r.searchTerm == s.searchTerm
    ensures r.basketsData == s.basketsData
  {
    match basketsData
    case Nothing => s
    case Just(page) =>
      var opts := Project(page.data);
      s.(options := opts, store := Apply(Reconcile(opts, s.store), s.store))
  }

  /** The effect re-runs after its own write (the store is one of its
      dependencies); that second run changes nothing, so one run settles. */
  lemma BasketsEffectSettles(basketsData: Maybe<BasketPage>, s: Screen)
    ensures BasketsEffect(basketsData, BasketsEffect(basketsData, s)) == BasketsEffect(basketsData, s)
  {
  }

  /** The mirror effect: the local selection takes the store's value. */
  function Mirror(s: Screen): (r: Screen)
    ensures r.local == r.store == s.store
    ensures r.options == s.options && r.currentPage == s.currentPage && r.searchTerm == s.searchTerm
    ensures r.basketsData == s.basketsData
  {
    s.(local := s.store)
  }

  /** A pick from the dropdown writes both the local copy and the store. */
  function Pick(s: Screen, picked: Store): (r: Screen)
    ensures r.local == picked && r.store == picked
    ensures r.options == s.options && r.currentPage == s.currentPage && r.searchTerm == s.searchTerm
    ensures r.basketsData == s.basketsData
  {
    s.(local := picked, store := picked)
  }

  // ---------------------------------------------------------------------
  // Queries
  // ---------------------------------------------------------------------

  /** The parameters of the stock page query. */
  datatype StockQuery = StockQuery(searchTerm: string, page: string, pageSize: string, basketId: string)

  /** The parameters of the basket page query. */
  datatype BasketQuery = BasketQuery(searchTerm: string, page: string, pageSize: string)

  /** `selectedOption?.value || ''`: the selected id, `''` when there is no
      selection, its value is undefined, or its value is empty. */
  function Scope(local: Store): (id: string)
    ensures id != "" <==> local.Just? && local.value.value.Just? && local.value.value.value != ""
    ensures id != "" ==> local.value.value == Just(id)
  {
    match local
    case Nothing => ""
    case Just(o) => o.value.GetOr("")
  }

  /** The stock query: no search term, the screen's page, ten rows, scoped
      to the local selection. */
  function StocksQueryOf(s: Screen): (q: StockQuery)
    ensures q.searchTerm == "" && q.page == s.currentPage && q.pageSize == "10"
    ensures q.basketId == "" <==>
              !(s.local.Just? && s.local.value.value.Just? && s.local.value.value.value != "")
    ensures q.basketId != "" ==> s.local.value.value == Just(q.basketId)
  {
    StockQuery("", s.currentPage, "10", Scope(s.local))
  }

  /** The basket query: the dropdown's search term, the same page, ten rows. */
  function BasketsQueryOf(s: Screen): (q: BasketQuery)
    ensures q.searchTerm == s.searchTerm && q.page == s.currentPage && q.pageSize == "10"
  {
    BasketQuery(s.searchTerm, s.currentPage, "10")
  }

  // ---------------------------------------------------------------------
  // Empty-basket gating
  // ---------------------------------------------------------------------

  /** Which of the screen's mutually exclusive parts render. */
  datatype View = View(createStocksButton: bool, selectorAndTable: bool, noBasketsPrompt: bool)

  /** `basketsData && Number(totalCumulativeCount) > 0`. */
  predicate HasBaskets(basketsData: Maybe<BasketPage>) {
    basketsData.Just? && basketsData.value.totalCumulativeCount > 0
  }

  /** The stock table, its selector and the Create Stocks button render
      exactly when the basket count is positive; otherwise, including while
      no basket data has arrived, only the Create Basket prompt does. */
  function ViewOf(basketsData: Maybe<BasketPage>): (v: View)
    ensures v.selectorAndTable <==> basketsData.Just? && basketsData.value.totalCumulativeCount > 0
    ensures v.createStocksButton == v.selectorAndTable
    ensures v.noBasketsPrompt == !v.selectorAndTable
  {
    var shown := HasBaskets(basketsData);
    View(shown, shown, !shown)
  }

  // ---------------------------------------------------------------------
  // Sequences of events
  // ---------------------------------------------------------------------

  /** What can happen to the screen: a basket page arrives (or the query
      has no data yet), the user picks from the dropdown, types in its
      search box, or moves to another page. */
  datatype Event =
    | PageArrived(basketsData: Maybe<BasketPage>)
    | Picked(picked: Store)
    | SearchTyped(term: string)
    | PageChanged(page: string)

  /** One event followed by the effects it triggers, run to rest. New basket
      data runs the basket-data effect; a pick writes the store, which is a
      dependency of the basket-data effect, so that effect runs again
      against the data already delivered. Either store change then runs the
      mirror effect. Typing a search or changing the page only changes the
      query parameters; the data they lead to arrives as a later event. */
  function Step(s: Screen, e: Event): (r: Screen)
    ensures e.PageArrived? ==> r.basketsData == e.basketsData
    ensures e.PageArrived? && e.basketsData.Just? ==>
              r.options == Project(e.basketsData.value.data)
              && r.store == Apply(Reconcile(r.options, s.store), s.store)
    ensures e.PageArrived? && e.basketsData.Nothing? ==> r == s.(basketsData := Nothing)
    ensures e.Picked? ==> r.basketsData == s.basketsData
    ensures e.Picked? && s.basketsData.Just? ==>
              r.options == Project(s.basketsData.value.data)
              && r.store == Apply(Reconcile(r.options, e.picked), e.picked)
    ensures e.Picked? && s.basketsData.Nothing? ==> r.options == s.options && r.store == e.picked
    ensures e.Picked? || (e.PageArrived? && e.basketsData.Just?) ==> r.local == r.store
    ensures e.PageArrived? || e.Picked? ==> r.currentPage == s.currentPage && r.searchTerm == s.searchTerm
    ensures e.SearchTyped? ==> r == s.(searchTerm := e.term)
    ensures e.PageChanged? ==> r == s.(currentPage := e.page)
  {
    match e
    case PageArrived(data) =>
      if data.Nothing? then s.(basketsData := Nothing)
      else Mirror(BasketsEffect(data, s.(basketsData := data)))
    case Picked(p) => Mirror(BasketsEffect(s.basketsData, Pick(s, p)))
    case SearchTyped(t) => s.(searchTerm := t)
    case PageChanged(p) => s.(currentPage := p)
  }

  /** The screen after a sequence of events, in order. Only a pick or the
      arrival of basket data ever changes the store; the search term and the
      page are each the initial one or the one some event set. */
  function Replay(events: seq<Event>, s: Screen): (r: Screen)
    ensures r.store == s.store
            || exists i :: 0 <= i < |events| && (events[i].Picked? || (events[i].PageArrived? && events[i].basketsData.Just?))
    ensures r.searchTerm == s.searchTerm || exists i :: 0 <= i < |events| && events[i] == SearchTyped(r.searchTerm)
    ensures r.currentPage == s.currentPage || exists i :: 0 <= i < |events| && events[i] == PageChanged(r.currentPage)
    decreases |events|
  {
    if |events| == 0 then s
    else
      var r := Replay(events[1..], Step(s, events[0]));
      assert forall i :: 0 <= i < |events| - 1 ==> events[1..][i] == events[i + 1];
      r
  }

  /** No event in the sequence is a dropdown pick. */
  predicate NoPicks(events: seq<Event>) {
    forall i :: 0 <= i < |events| ==> !events[i].Picked?
  }

  /** Replaying a concatenation is replaying its parts one after another. */
  lemma {:induction false} ReplayAppend(a: seq<Event>, b: seq<Event>, s: Screen)
    ensures Replay(a + b, s) == Replay(b, Replay(a, s))
    decreases |a|
  {
    if |a| == 0 {
      assert a + b == b;
    } else {
      assert (a + b)[1..] == a[1..] + b;
      ReplayAppend(a[1..], b, Step(s, a[0]));
    }
  }

  /** Once the local copy mirrors the store, it does so after any events. */
  lemma {:induction false} ReplayKeepsMirror(events: seq<Event>, s: Screen)
    requires s.local == s.store
    ensures Replay(events, s).local == Replay(events, s).store
    decreases |events|
  {
    if |events| > 0 {
      ReplayKeepsMirror(events[1..], Step(s, events[0]));
    }
  }

  /** The options shown are the projection of the basket page held, once
      one is held. */
  predicate OptionsTrackPage(s: Screen) {
    s.basketsData.Just? ==> s.options == Project(s.basketsData.value.data)
  }

  /** Every event keeps the options in step with the held page. */
  lemma {:induction false} ReplayTracksPage(events: seq<Event>, s: Screen)
    requires OptionsTrackPage(s)
    ensures OptionsTrackPage(Replay(events, s))
    decreases |events|
  {
    if |events| > 0 {
      ReplayTracksPage(events[1..], Step(s, events[0]));
    }
  }

  /** After any events from mount, whenever the selector is on screen its
      options are exactly the held page's baskets, as `{label, value}` pairs
      in page order, and the Create Basket prompt is not. */
  lemma ViewShowsHeldOptions(events: seq<Event>, persisted: Store)
    ensures var s := Replay(events, Mount(persisted));
            && (ViewOf(s.basketsData).selectorAndTable ==>
                  s.options == Project(s.basketsData.value.data)
                  && |s.options| == |s.basketsData.value.data|)
            && (ViewOf(s.basketsData).selectorAndTable <==> !ViewOf(s.basketsData).noBasketsPrompt)
  {
    ReplayTracksPage(events, Mount(persisted));
  }

  /** Without picks, a selection that is not the `''` sentinel survives any
      number of page arrivals, searches and page changes unchanged. */
  lemma {:induction false} ReplayNonEviction(events: seq<Event>, s: Screen)
    requires NoPicks(events)
    requires StoredValue(s.store) != Just("")
    ensures Replay(events, s).store == s.store
    decreases |events|
  {
    if |events| > 0 {
      assert !events[0].Picked?;
      var e := events[0];
      if e.PageArrived? && e.basketsData.Just? {
        NonEviction(Project(e.basketsData.value.data), s.store);
      }
      assert Step(s, e).store == s.store;
      ReplayNonEviction(events[1..], Step(s, e));
    }
  }

  /** Without picks, the store either never changes or ends on a value that
      is not the sentinel. */
  lemma {:induction false} ReplayLeavesSentinel(events: seq<Event>, s: Screen)
    requires NoPicks(events)
    ensures Replay(events, s).store == s.store || StoredValue(Replay(events, s).store) != Just("")
    decreases |events|
  {
    if |events| > 0 {
      var e := events[0];
      assert !e.Picked?;
      var t := Step(s, e);
      if t.store == s.store {
        ReplayLeavesSentinel(events[1..], t);
      } else {
        assert e.PageArrived? && e.basketsData.Just?;
        WrittenIsNotSentinel(Project(e.basketsData.value.data), s.store);
        ReplayNonEviction(events[1..], t);
      }
    }
  }

  /** Without picks, reconciliation writes the store at most once: whatever
      the store holds after any prefix of the events, if it has changed by
      then, it is what the store holds at the end. */
  lemma {:induction false} AtMostOneAutoWrite(events: seq<Event>, k: nat, s: Screen)
    requires NoPicks(events)
    requires k <= |events|
    requires Replay(events[..k], s).store != s.store
    ensures Replay(events, s).store == Replay(events[..k], s).store
  {
    var mid := Replay(events[..k], s);
    assert NoPicks(events[..k]) by {
      forall i | 0 <= i < k ensures !events[..k][i].Picked? {
        assert events[..k][i] == events[i];
      }
    }
    assert NoPicks(events[k..]) by {
      forall i | 0 <= i < |events| - k ensures !events[k..][i].Picked? {
        assert events[k..][i] == events[k + i];
      }
    }
    ReplayLeavesSentinel(events[..k], s);
    ReplayNonEviction(events[k..], mid);
    assert events[..k] + events[k..] == events;
    ReplayAppend(events[..k], events[k..], s);
  }

  /** After any events from mount, the stock query is scoped to the store's
      selection, asks for the same page as the basket query, and never
      carries a search term, whatever was typed in the basket search. */
  lemma StockQueryFollowsStore(events: seq<Event>, persisted: Store)
    ensures var s := Replay(events, Mount(persisted));
            && StocksQueryOf(s).basketId == Scope(s.store)
            && StocksQueryOf(s).page == BasketsQueryOf(s).page
            && StocksQueryOf(s).searchTerm == ""
            && StocksQueryOf(s).pageSize == BasketsQueryOf(s).pageSize == "10"
  {
    ReplayKeepsMirror(events, Mount(persisted));
  }

  /** A pick of an option whose value is not the sentinel sticks: no later
      page arrival, search or page change moves the selection off it. */
  lemma PickIsSticky(picked: Store, events: seq<Event>, s: Screen)
    requires NoPicks(events)
    requires StoredValue(picked) != Just("")
    ensures Replay([Picked(picked)] + events, s).store == picked
    ensures Replay([Picked(picked)] + events, s).local == picked
  {
    var t := Step(s, Picked(picked));
    if s.basketsData.Just? {
      NonEviction(Project(s.basketsData.value.data), picked);
    }
    ReplayAppend([Picked(picked)], events, s);
    assert Replay([Picked(picked)], s) == Replay([], t) == t;
    ReplayNonEviction(events, t);
    ReplayKeepsMirror(events, t);
  }

  /** The dropdown offers the held page's options, and a pick of any of
      them survives the re-run of the basket-data effect that follows it:
      its value is on the page, so reconciliation keeps it. */
  lemma PickFromOptionsKept(s: Screen, i: nat)
    requires OptionsTrackPage(s) && s.basketsData.Just?
    requires i < |s.options|
    ensures Step(s, Picked(Just(s.options[i]))).store == Just(s.options[i])
    ensures Step(s, Picked(Just(s.options[i]))).local == Just(s.options[i])
  {
  }

  /** A selection whose value is `''` and which is not among the held
      page's options (so it did not come from the dropdown) does not survive
      a pick while that page has baskets and none of them has the empty id:
      the re-run of the basket-data effect replaces it with the page's
      first basket. */
  lemma {:induction false} SentinelPickIsReplaced(s: Screen, caption: Maybe<string>)
    requires s.basketsData.Just? && |s.basketsData.value.data| > 0
    requires forall i :: 0 <= i < |s.basketsData.value.data| ==> s.basketsData.value.data[i].id != ""
    ensures Step(s, Picked(Just(BasketOpt(caption, Just(""))))).store
            == Just(OptionOf(s.basketsData.value.data[0]))
  {
    var opts := Project(s.basketsData.value.data);
    assert forall j :: 0 <= j < |opts| ==> opts[j].value != Just("");
    assert opts[0] == OptionOf(s.basketsData.value.data[0]);
  }

  // ---------------------------------------------------------------------
  // Scenarios
  // ---------------------------------------------------------------------

  /** First selection: with the cleared sentinel stored, a page
      `[b1 Growth]` selects `{Growth, b1}` and scopes the stock query to
      `b1`. */
  lemma FirstSelectionScenario()
    ensures var s := Step(Mount(Just(BasketOpt(Nothing, Just("")))),
                          PageArrived(Just(BasketPage([Basket("b1", "Growth")], 1))));
            s.store == Just(BasketOpt(Just("Growth"), Just("b1")))
            && StocksQueryOf(s).basketId == "b1"
  {
  }

  /** Stale label: a renamed basket that is still on the page keeps the old
      label in the store. */
  lemma RenameKeepsLabelScenario()
    ensures var s := Step(Mount(Just(BasketOpt(Just("Growth"), Just("b1")))),
                          PageArrived(Just(BasketPage([Basket("b1", "Growth2")], 1))));
            s.store == Just(BasketOpt(Just("Growth"), Just("b1")))
  {
  }

  /** The sentinel on an empty page writes `result[0]`, i.e. undefined, and
      the next run leaves that alone. */
  lemma EmptyPageClearsSentinel(s: Screen)
    requires s.store == Just(BasketOpt(Nothing, Just("")))
    ensures BasketsEffect(Just(BasketPage([], 0)), s).store == Nothing
    ensures BasketsEffect(Just(BasketPage([], 0)), BasketsEffect(Just(BasketPage([], 0)), s)).store == Nothing
    ensures StocksQueryOf(Mirror(BasketsEffect(Just(BasketPage([], 0)), s))).basketId == ""
  {
  }
}
