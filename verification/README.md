# Basket selection and basket dialog — a Dafny model

This project models the two pieces of logic in the TickStock portfolio
front-end that are more than layout:

- **The Stocks screen's basket selection** (`PortfolioStocks`, in
  `portfolio_stocks.dfy`). Each fetched basket page is projected to dropdown
  options (`label ← basketName`, `value ← id`, order kept). The options are
  then reconciled with the persisted store selection. The store is
  overwritten with `result[0]` only when no option's value equals the stored
  value *and* the stored value is exactly `''`. A local copy mirrors the
  store and scopes the stock query. A dropdown pick writes both copies. The
  stock table and its selector render only when the basket count is
  positive. React effects are modelled as pure functions applied to a
  snapshot of the screen (`Screen`). A sequence of user and fetch events is
  replayed with `Replay`.
- **The basket create/edit dialog** (`BasketForm`, in `basket_form.dfy`).
  Its field is prefilled from the edit payload. A submission becomes an
  `Update(id, name)` request when an edit payload is present and a
  `Create(name)` request otherwise. The pending flag is raised during the
  submission and lowered before the handler returns. The mutation's success
  callback closes the dialog and clears the field. The title and button
  text are functions of (editing, pending). The parent screen's Edit and
  Create Basket buttons are modelled as transitions of the payload and the
  dialog (`Host`).

`Maybes.Maybe` stands for TypeScript's `T | undefined`.
`PortfolioTypes` holds the shared records: `Basket`, `BasketPage`,
`BasketOpt` and `Store`. `label` is a Dafny keyword, so the option's label
field is called `caption`.

Behaviour of the code worth knowing, which the model keeps as written:

- An empty basket page with the `''` sentinel stored sets the store to
  undefined, because the code writes `result[0]` whether or not the page has
  rows (`EmptyPageClearsSentinel`).
- The "No baskets available" prompt also shows while no basket data has
  arrived, not only when the basket count is zero (`ViewOf`).
- The stock query passes an empty search term, so the stock table's search
  box has no effect on it. It also shares `currentPage` with the basket
  query (`StocksQueryOf`, `StockQueryFollowsStore`).
- A dropdown pick writes the store, and the store is a dependency of the
  reconciliation effect, so reconciliation runs again right after a pick.
  The dropdown offers exactly the held page's options (`ViewShowsHeldOptions`),
  so that re-run keeps any option picked from it (`PickFromOptionsKept`).
  Only a selection with value `''` that is not on the held page would be
  replaced by the page's first basket (`Step`, `SentinelPickIsReplaced`).
- The Create Basket button only opens the dialog; nothing ever clears the
  edit payload. After an Edit, the Create Basket button therefore opens the
  dialog in edit mode, and its submission updates the last edited basket
  (`CreateAfterEditStillEdits`).

## Model

| member | source | states |
|---|---|---|
| PortfolioStocks.Project | src/pages/Portfolio/portfolio-stocks.tsx:128-131 | the options have the page's length, and option i has basket i's name as label and its id as value |
| PortfolioStocks.ProjectAppend | src/pages/Portfolio/portfolio-stocks.tsx:128-131 | projection is an order-preserving map: projecting a concatenation of pages concatenates their projections |
| PortfolioStocks.StoredValue | src/pages/Portfolio/portfolio-stocks.tsx:135 | the stored value read with optional chaining is undefined when the store is undefined, else the stored option's value |
| PortfolioStocks.Find | src/pages/Portfolio/portfolio-stocks.tsx:134-136 | the result is the first position whose option value strictly equals the stored value; it is absent exactly when no option matches |
| PortfolioStocks.FoundIffOnPage | src/pages/Portfolio/portfolio-stocks.tsx:128-136 | a stored value is found among a page's options exactly when it is defined and some basket on the page has that id |
| PortfolioStocks.First | src/pages/Portfolio/portfolio-stocks.tsx:138 | `result[0]` is the first option, and undefined exactly when the page is empty |
| PortfolioStocks.Reconcile | src/pages/Portfolio/portfolio-stocks.tsx:134-139 | a write happens if and only if no option carries the stored value and the stored value is exactly `''`; the written selection is the first option, or undefined for an empty page |
| PortfolioStocks.NonEviction | src/pages/Portfolio/portfolio-stocks.tsx:134-139 | a store whose value is not `''` is left exactly as it was: a missing basket is not evicted, a never-set store or undefined value is not auto-filled, and a found basket keeps its stale label |
| PortfolioStocks.WrittenIsNotSentinel | src/pages/Portfolio/portfolio-stocks.tsx:137-138 | whatever reconciliation writes never has the `''` sentinel as its value |
| PortfolioStocks.ReconcileIdempotent | src/pages/Portfolio/portfolio-stocks.tsx:134-139 | reconciling again against the same options, from the store the first run produced, performs no write |
| PortfolioStocks.FirstRender | src/pages/Portfolio/portfolio-stocks.tsx:28-50 | before any effect runs, the local selection is undefined, the page is '1', the search is empty, no basket data is held, and the stock query's basket id is `''` |
| PortfolioStocks.Mount | src/pages/Portfolio/portfolio-stocks.tsx:142-144 | after the mirror effect's first run over the first render (`FirstRender`), the local selection equals the persisted store; options are empty, the page is '1', the search is empty, no basket data is held |
| PortfolioStocks.BasketsEffect | src/pages/Portfolio/portfolio-stocks.tsx:126-141 | with no basket data the screen is unchanged; with data the options become the page's projection and the store takes reconciliation's write; local copy, page and search are untouched |
| PortfolioStocks.BasketsEffectSettles | src/pages/Portfolio/portfolio-stocks.tsx:126-141 | the effect's re-run, triggered by its own store write, changes nothing |
| PortfolioStocks.Mirror | src/pages/Portfolio/portfolio-stocks.tsx:142-144 | after the mirror effect the local selection equals the store and nothing else changes |
| PortfolioStocks.Pick | src/pages/Portfolio/portfolio-stocks.tsx:187-196 | a dropdown pick sets both the local selection and the store to the picked option and nothing else |
| PortfolioStocks.StocksQueryOf | src/pages/Portfolio/portfolio-stocks.tsx:46-51 | the stock query has no search term, the screen's page and page size '10'; its basket id is `''` exactly when there is no local selection with a defined non-empty value, and otherwise is that value |
| PortfolioStocks.BasketsQueryOf | src/pages/Portfolio/portfolio-stocks.tsx:41-45 | the basket query carries the dropdown's search term, the screen's page and page size '10' |
| PortfolioStocks.Scope | src/pages/Portfolio/portfolio-stocks.tsx:50 | the scope is non-empty exactly when a selection with a defined, non-empty value exists, and then it is that value |
| PortfolioStocks.ViewOf | src/pages/Portfolio/portfolio-stocks.tsx:161-177 | the selector, stock table and Create Stocks button render exactly when basket data exists with a positive total; otherwise only the Create Basket prompt renders; its partner is `ViewShowsHeldOptions` |
| PortfolioStocks.ReplayTracksPage | src/pages/Portfolio/portfolio-stocks.tsx:126-133 | every event keeps the options equal to the projection of the basket page held, once one is held |
| PortfolioStocks.ViewShowsHeldOptions | src/pages/Portfolio/portfolio-stocks.tsx:175-185 | after any events from mount, whenever the selector is on screen its options are exactly the held page's baskets in page order, and the prompt is shown exactly when the selector is not |
| PortfolioStocks.Step | src/pages/Portfolio/portfolio-stocks.tsx:126-196 | new basket data is kept, projected to the options and reconciled against the store; a pick is reconciled against the data already held, or kept as picked when there is none; after either, the local copy equals the store and page and search are unchanged; a search or page change alters only that parameter |
| PortfolioStocks.Replay | src/pages/Portfolio/portfolio-stocks.tsx:126-196 | over any event sequence the store changes only if some event is a pick or an arrival of basket data; the final search term and page are the initial ones or ones some event set |
| PortfolioStocks.ReplayAppend | src/pages/Portfolio/portfolio-stocks.tsx:126-196 | replaying two event sequences one after the other equals replaying their concatenation |
| PortfolioStocks.ReplayKeepsMirror | src/pages/Portfolio/portfolio-stocks.tsx:142-144 | once the local selection equals the store, it still does after any sequence of events |
| PortfolioStocks.ReplayNonEviction | src/pages/Portfolio/portfolio-stocks.tsx:134-139 | without dropdown picks, a store whose value is not `''` survives any sequence of page arrivals, searches and page changes |
| PortfolioStocks.ReplayLeavesSentinel | src/pages/Portfolio/portfolio-stocks.tsx:134-139 | without picks, the store either ends unchanged or ends on a value that is not the sentinel |
| PortfolioStocks.AtMostOneAutoWrite | src/pages/Portfolio/portfolio-stocks.tsx:134-139 | without picks, reconciliation writes at most once: once the store has changed after some prefix of the events, it keeps that value to the end |
| PortfolioStocks.StockQueryFollowsStore | src/pages/Portfolio/portfolio-stocks.tsx:41-51 | after any events from mount, the stock query is scoped to the store's selection, asks for the same page and page size ('10') as the basket query, and never carries a search term |
| PortfolioStocks.PickIsSticky | src/pages/Portfolio/portfolio-stocks.tsx:187-196 | a picked option whose value is not `''` stays in both the store and the local copy through any later page arrivals, searches and page changes |
| PortfolioStocks.PickFromOptionsKept | src/pages/Portfolio/portfolio-stocks.tsx:134-196 | a pick of any option the dropdown offers stays in the store and the local copy after the reconciliation re-run, because its value is on the held page |
| PortfolioStocks.SentinelPickIsReplaced | src/pages/Portfolio/portfolio-stocks.tsx:134-196 | a selection with value `''` that is not on the held page (so not one the dropdown offers), while that page has baskets and none with an empty id, leaves the store on the page's first basket, because reconciliation runs again after the pick |
| PortfolioStocks.FirstSelectionScenario | src/pages/Portfolio/portfolio-stocks.tsx:126-144 | with the `''` sentinel stored, a page `[b1 Growth]` selects `{Growth, b1}` and scopes the stock query to `b1` |
| PortfolioStocks.RenameKeepsLabelScenario | src/pages/Portfolio/portfolio-stocks.tsx:134-139 | a basket renamed to Growth2 that is still on the page leaves the stored label Growth |
| PortfolioStocks.EmptyPageClearsSentinel | src/pages/Portfolio/portfolio-stocks.tsx:137-138 | the `''` sentinel on an empty page makes the store undefined, a second run leaves it undefined, and the stock scope becomes `''` |
| BasketForm.DefaultField | src/pages/Portfolio/Components/basket-form.tsx:42-44 | the default field value is the edited basket's name when there is an edit payload, else `''` |
| BasketForm.Prefill | src/pages/Portfolio/Components/basket-form.tsx:48-52 | with an edit payload the field becomes its basket name; without one the dialog is unchanged |
| BasketForm.MountForm | src/pages/Portfolio/Components/basket-form.tsx:37-52 | when the dialog component mounts, the field shows the default value (the edited basket's name or `''`) after the prefill effect, and nothing is pending |
| BasketForm.SetOpen | src/pages/Portfolio/Components/basket-form.tsx:81 | setting the open flag while the edit payload is unchanged (dismissal, or the Create Basket button) keeps the field and the pending flag |
| BasketForm.ReopenKeepsField | src/pages/Portfolio/Components/basket-form.tsx:60-81 | while the edit payload is unchanged, a dialog dismissed and reopened shows the text it had, and one reopened after a successful submission shows an empty field; an Edit click refills the field with the basket's name |
| BasketForm.EditClicked | src/pages/Portfolio/Portfolio.tsx:80-84 | the Edit action sets the payload to the row's basket and opens the dialog, and the prefill effect then shows that basket's name in the field |
| BasketForm.CreateClicked | src/pages/Portfolio/Portfolio.tsx:129-131 | the Create Basket button opens the dialog and keeps the edit payload and the field as they were |
| BasketForm.Dismissed | src/pages/Portfolio/Components/basket-form.tsx:81 | the dialog's dismissal closes it and keeps the payload and the field |
| BasketForm.CreateAfterEditStillEdits | src/pages/Portfolio/Portfolio.tsx:80-131 | a Create Basket click after a dismissed Edit opens the dialog titled Edit Basket, with the basket's name, and its submission is an update of that basket |
| BasketForm.Dispatch | src/pages/Portfolio/Components/basket-form.tsx:56-73 | the request is an update if and only if there is an edit payload; it carries the submitted name, and an update carries the payload's id |
| BasketForm.Submit | src/pages/Portfolio/Components/basket-form.tsx:54-78 | pending is true while the request is issued and false when the handler returns; open flag and field are unchanged; the one request issued is the dispatched one |
| BasketForm.SubmitRequest | src/pages/Portfolio/Components/basket-form.tsx:56-73 | with an edit payload the submission issues exactly `Update(payload id, name)`; without one, exactly `Create(name)` |
| BasketForm.Succeed | src/pages/Portfolio/Components/basket-form.tsx:60-63 | the success callback closes the dialog and resets the field to `''` |
| BasketForm.SubmitThenSucceed | src/pages/Portfolio/Components/basket-form.tsx:54-78 | on both paths, a submission followed by success leaves the dialog closed, not pending, with an empty field |
| BasketForm.Title | src/pages/Portfolio/Components/basket-form.tsx:90 | the title is 'Edit Basket' if and only if there is an edit payload, else 'Create Basket' |
| BasketForm.ButtonLabel | src/pages/Portfolio/Components/basket-form.tsx:114-120 | each of the four (editing, pending) modes has its own text, as an if-and-only-if per mode |
| BasketForm.ButtonDisabled | src/pages/Portfolio/Components/basket-form.tsx:111 | the submit button is disabled if and only if a submission is pending |
| BasketForm.ButtonLabelRoundTrip | src/pages/Portfolio/Components/basket-form.tsx:114-120 | the mode can be read back from the button text it produced |
| BasketForm.TitleAgreesWithButton | src/pages/Portfolio/Components/basket-form.tsx:90-120 | the title says edit exactly when the button offers an update |
| BasketForm.ButtonAroundSubmit | src/pages/Portfolio/Components/basket-form.tsx:109-120 | the button is disabled exactly when pending: during a submission it is disabled and shows the in-progress text; after it, the button is enabled with the idle text |

## Left out

- Data fetching and the two mutations (`useFetchBasketsData`, `useFetchStocksData`, `useCreateBasketPost`, `useUpdateBasketPatch`): their code is not part of this model. A basket page arrives as an event. A mutation is the request value it is handed, and its success is the `Succeed` transition. So refetch after submit, caching, failure handling and last-response-wins ordering are not modelled. No stale-response guard is modelled either, because none is visible in the screen.
- React effect scheduling and batching: each event is followed by the effects whose dependencies it changed, applied to a snapshot (`Step`). A pick re-runs reconciliation against the basket data already held. A search or page change only alters the query parameters; the data it leads to arrives as a later `PageArrived` event, which may carry no data while the new query is loading. That one run of the reconciliation effect is enough is proved by `BasketsEffectSettles`. Because batching is not modelled, the model does not say whether the transient `pending = true` of the update path is ever rendered.
- Mount: `Mount` is the screen after the mirror effect's first run. The render before it, whose stock query is unscoped, is `FirstRender`. The stock fetch that this first render may start is not modelled, because fetching is not part of the model.
- The persistence of the selection store beyond a single `Maybe<BasketOpt>` cell.
- The 1-second delay before a create: a presentation delay with no logic.
- The form schema validation: its code is not part of this model. `Submit` receives a name that has already passed validation.
- `Number(totalCumulativeCount)`: the total is modelled as an integer. A non-numeric value, which `Number` would turn into NaN and thus hide the table, is not modelled.
- `src/pages/Portfolio/Portfolio.tsx`: only its Edit and Create Basket buttons are modelled (`EditClicked`, `CreateClicked`). Its table composition, hard-coded stock count and currency-formatted constant are left out.
- EditClicked: the prefill effect re-runs when the payload object changes. The model treats every Edit click as such a change. Clicking Edit again with the very same row object would not re-run the prefill; the model does not distinguish object identity.
- Rendering, animations, icons, dialog chrome, the stock columns' currency and date formatting, and console logging.
