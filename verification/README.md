# A verified model of project-ea-bot's stateful core

The project models four stateful parts of the EA bot and proves what they
guarantee over every input, every run or every reachable state. Where the code
does less than its own documentation says, the model follows the code: a lemma
gives a concrete input on which the promise fails, reached from the initial
state where there is a state, and another says for all inputs when it fails.

**Two-spelling imports** (`ImportSpec`, `ImportProofs`, `ImportTheorems`,
`UnifyImports`). `src/` is on `sys.path`, so every module can be imported as
`x` and as `src.x`; a meta-path hook is to keep one module object per file.
`ImportSpec` states Python's import protocol (PEP 451, "How Loading Will Work";
Python Language Reference, sections 5.3 and 5.4) with the hook in front of it as
a function on states. Bodies are lists of further imports, cycles included. The
invariant is proved for every import, and `UnifyImports` runs the hook in place
(cache, loader fields, `sys.modules`) against that function, with the invariant
at the start and end of every nested import. Hypotheses: no
module body raises (a failing import inside a body is caught); the graph is
finite; the state in which the hook is installed satisfies the invariant, which
it does exactly when no covered file was loaded under both spellings before
(`InstalledInvIff`); and the environment is well formed (`WellFormed`): a
`sys.path` search for a top-level name finds, below src/, only that name's own
file or the package src itself, with its entry (no `sys.path` entry lies deeper
inside src/), and no finder other than PathFinder yields a file below src/.
"Covered" paths have identifier parts and a top part that does not start with
an underscore.

**Chart window and geometry** (`Viewport`, `ChartGeometry`, `PathSegments`).
The candle window under any interleaving of data arrivals, zoom, wheel, drag and
buttons; the price, bar and label coordinates over reals; the splitting of
series with gaps into drawn paths.

**Order ledger and trade runs** (`OrderLedger`, `StaleSelection`, `BackfillRuns`,
`Recovery`, `OrderStore`, `DemoHarness`, `PaperTrading`, `PaperRun`, `Escalation`). The
append-only ledger and its replay, the stale-record backfill, the lookups before
and after a restart, the fail-closed one-order harness, the moving-average paper
run with its account, and the doubling backtest loop. Broker, terminal, engine
and file-system answers are parameters.

**Live connections and environment** (`Heartbeat`, `LiveStream`,
`EnvBootstrap`). Per-address counts and the ping/pong sweep (RFC 6455, sections
5.5.2 and 5.5.3), subscriptions and broadcasts, and filling the environment from
a file.

## Main results

- Imports: over any cyclic graph and any sequence of imports both spellings of a
  file stay one object and its body runs once (`ImportsUnify`); a bare import is
  diverted from the file it would have had exactly when `HijackedIff` says, made
  to fail when `BrokenIff` says, and given a second object of a loaded file when
  `BareSplitsIff` says.
- Window and chart: the candles on screen stay the same exactly when
  `SameBarsIff` says, over whole runs (`BrowsingRunKeepsBars`); what the price
  scans look at lies inside the panel (`ScannedInside`), and anything else drawn
  with them exactly when `OverlayInsideIff` says; segments are the maximal runs
  (`Split`, `RunsUnique`).
- Ledger: no number of backfill runs, whatever the broker and the file system
  answer, closes an intent twice (`NoDuplicateCloses`); what an interrupted run
  leaves for a second process (`SecondProcessFindsNoneIff`,
  `SecondRunClosesRest`); when the lookups before and after a restart agree
  (`LookupsAgreeIff`); which record a close resolves to (`ClosesLatestRecordIff`).
- Runs: gate order and the number of orders over any number of harness runs
  (`SubmitOnlyThroughGates`, `OrdersBounded`, `AtMostOneOrder`); paper trades against the averages
  (`TradesFollowTheLines`, `EmaClosedForm`, `RunPaper`).
- Connections and environment: counts and heartbeat over every history
  (`CountsAreOpenSockets`, `SweepTerminatesSilent`, `RefusedSocketsIgnorePongs`);
  the env file's round trip and load (`FileRoundTripIff`, `LoadSurvivesIff`,
  `LoadGivesExpected`).

## Where the code and its documentation differ

- Imports: "a same-named package elsewhere can never be hijacked" and "only
  intercepted when PathFinder already resolves it" do not hold once the src
  spelling is loaded (`HijackedIff`; `HijackExample`, where a submodule of an
  installed package is replaced). "Any doubt: normal import" does not hold for
  a name below a package from elsewhere whose top part PathFinder finds below
  src/: its import fails (`BrokenIff`, `BrokenExample`). One object per file does
  not hold for names the hook stays out of, imported bare after their src
  spelling, with a private top part for one (`BareSplitsIff`, `PrivateExample`),
  nor, in the other order, for names with a part that is no identifier
  (`SrcSplitsIff`, `OddNameExample`).
- Viewport: "keep the position exactly" fails for an ordinary refresh that drops
  the oldest bar for a new one, and for one that brings both older and newer
  bars: the candles on screen slip (`SameBarsIff`, `SlippingExample`). A reload
  of the same dataset after an empty one shows a single bar
  (`ReloadShowsOneBar`, `ReloadExample`).
- Chart scale: for one flat negative price the padding turns the scale over
  (`ProperScaleIff`, `TurnedOverExample`). The range is said to cover the bars
  and the indicators shown, but leaves out the moving averages, and a band value
  widens it on one side only: they can be drawn outside the panel
  (`OverlayInsideIff`, `OverlayOutsideExample`).
- Backfill: "a re-run reports zero candidates" fails when a stale record shares
  its ticket with a later record, and when the first run did not get every close
  into the file, because of a corrupt line, a broken read or a refused append;
  the count it prints is of records closed in memory. In the second case the
  re-run writes what is left (`SecondProcessFindsNoneIff`, `SharedTicketExample`,
  `RefusedThenTakenExample`). "No duplicate closed rows" always holds
  (`NoDuplicateCloses`).
- `mark_closed` documents "the last record wins"; it takes the owner that comes
  last in dictionary order, that is, whose intent was first seen last
  (`ClosesLatestRecordIff`, `ReopenedNeverCloses`).
- Harness: the no-second-order guard is not fail-closed on a failed positions
  read (`SecondOrderIff`, `SecondOrderExample`). The lookups before and after a
  restart can report different records of a ticket (`LookupsAgreeIff`,
  `TwoOwnersDisagree`), and the raw scan overlooks records whose text holds a
  line separator beyond ASCII, which the store reads (`StoreWithoutScanIff`,
  `HiddenFromScanExample`).
- Env file: the returned "number of keys" counts a key again each time a blank
  fill is followed by another mention (`CountIsKeysIff`, `BlankCountedTwice`).
  "Never raise" fails on a NUL character in what is to be stored: the load stops
  there, and its callers catch the exception and go on without the remaining
  keys (`LoadSurvivesIff`, `NulStopsLoad`).
- Heartbeat: a socket whose upgrade was refused has no pong listener, so pongs
  do not save it from the second sweep (`RefusedSocketsIgnorePongs`,
  `RefusedExample`).

## Model

| member | source | states |
|---|---|---|
| ImportTheorems.ImportsUnify | services/python/src/_unify_imports.py:16-18 | over any sequence of imports from any state satisfying the invariant, both spellings of a covered src file denote one object, its body runs at most once, and no binding is ever changed |
| ImportTheorems.Mt5Example | services/python/src/_unify_imports.py:11-19 | `import src.mt5.terminals` and then `import mt5.terminals` from a fresh start: every file has run once and is one module under both names |
| ImportSpec.IdentifierLaws | services/python/src/_unify_imports.py:153-155 | identifiers are the letters and the underscore, closed under joining and under a digit behind, never empty, never digit-first, and hold no other character |
| ImportTheorems.InitialInv | services/python/src/_unify_imports.py:180-192 | the state right after `import src` in a fresh interpreter is one imports without the hook lead to, and satisfies the invariant |
| ImportTheorems.InstalledInvIff | services/python/src/_unify_imports.py:180-192 | after any imports without the hook, installing it establishes the invariant exactly when no covered file was loaded under both spellings |
| ImportTheorems.PlainLoad | services/python/src/_unify_imports.py:8-11 | each load by the finders behind the hook leads from one such state to another |
| ImportProofs.ImportKeepsInv | services/python/src/_unify_imports.py:150-177 | one import, with everything its bodies import in turn, keeps the invariant and only extends the bindings |
| ImportTheorems.CanonicalAfterBare | services/python/src/_unify_imports.py:158-165 | once the bare spelling holds a src file, importing the src spelling succeeds with the same object |
| ImportTheorems.BareAfterCanonical | services/python/src/_unify_imports.py:167-177 | once the src spelling is loaded, importing the bare spelling succeeds with the same object unless a foreign module holds part of the name |
| ImportTheorems.ImportsKeepSpecs | services/python/src/_unify_imports.py:61-66 | an object keeps its file and the spec it has through every import; one loaded on the way carries the spec of a spelling bound to it |
| ImportTheorems.NoEntryNoSpec | services/python/src/_unify_imports.py:69-107 | a name whose top part has no entry below src/ gets no spec from the hook |
| ImportTheorems.HijackedIff | services/python/src/_unify_imports.py:22-26 | for every bare name, dotted or not, unbound once its package is imported: the hook gives it a src file the other finders would not have given exactly when the src spelling is loaded, or PathFinder sees the top part below src/ and the path exists there |
| ImportTheorems.SrcImportIff | services/python/src/_unify_imports.py:158-165 | whatever was imported before, a src spelling can be imported exactly when its file and packages exist |
| ImportTheorems.HijackExample | services/python/src/_unify_imports.py:167-173 | an installed package is bound, and yet its submodule comes from src/ after three imports |
| ImportTheorems.BareSplitsIff | services/python/src/_unify_imports.py:150-177 | for every bare name imported after its src spelling, private, dotted or with parts that are no identifiers: the file runs again as a second object exactly when the hook stays out and the finders behind it find the file |
| ImportTheorems.SrcSplitsIff | services/python/src/_unify_imports.py:69-74 | in the other order the file runs again exactly when a part of the path is no identifier; otherwise, private names included, both spellings are one object and nothing runs |
| ImportTheorems.PrivateExample | services/python/src/_unify_imports.py:153-155 | src/_x.py imported under both spellings is executed twice |
| ImportTheorems.OddNameExample | services/python/src/_unify_imports.py:69-74 | src/x-y.py imported bare and then below src is executed twice |
| ImportTheorems.BrokenIff | services/python/src/_unify_imports.py:27 | a bare name the other finders would find fails to import exactly when its top part resolves below src/, its src spelling is not loaded, and its path does not exist there |
| ImportTheorems.BrokenExample | services/python/src/_unify_imports.py:27 | a submodule of a package loaded from elsewhere before the hook cannot be imported any more |
| ImportTheorems.MissingStaysMissing | services/python/src/_unify_imports.py:27 | a module that a package from elsewhere does not have is not found unless the hook takes over |
| ImportSpec.Import | services/python/src/_unify_imports.py:54-59 | importing terminates for every finite, possibly cyclic graph, binds what it returns, and never unbinds |
| UnifyImports.Interpreter.BareTopResolvesToSrc | services/python/src/_unify_imports.py:110-142 | the cached answer always equals what PathFinder says |
| UnifyImports.Interpreter.FindSpec | services/python/src/_unify_imports.py:150-177 | the finder intercepts exactly the names, and with the targets, of the specification |
| UnifyImports.Interpreter.ImportModule | services/python/src/_unify_imports.py:54-59 | the in-place import terminates in exactly the specified state and result, and every import nested in it starts and ends with the unification invariant |
| UnifyImports.Interpreter.LoadAlias | services/python/src/_unify_imports.py:46-66 | overwriting and restoring the spec around an alias amounts to the specified alias step |
| UnifyImports.AliasLoader.CreateModule | services/python/src/_unify_imports.py:54-59 | imports the canonical name and remembers the spec found on the object |
| UnifyImports.Interpreter.BindAlias | services/python/src/_unify_imports.py:46-66 | after importlib's overwrite and the loader's restore the object has a second name and the spec it had, or the alias spec if it had none |
| Viewport.SameBarsIff | apps/web/lib/viewport.ts:48-70 | for every arrival that overlaps the data, dropping oldest bars, bringing older or newer ones and updating those that stay: the visible candles stay the same exactly when nothing newer came, or nothing older did and the window was away from the edge, or, after a drop, nothing newer came and the window ended on the newest bar clear of the dropped ones |
| Viewport.SlippingExample | apps/web/app/market/page.tsx:39-46 | a refresh of fixed size, and one with older and newer bars, move a browsing window by one candle |
| Viewport.BrowsingExample | apps/web/components/PriceChart.tsx:361-374 | the browsing state of that example is reached by mounting, one prepend and a drag |
| Viewport.BrowsingRunKeepsBars | apps/web/lib/viewport.ts:9-14 | over any run of prepends, and of appends away from the edge, the visible slice is the same sequence of candles, with the same values if no kept bar was updated |
| Viewport.EdgeAppendFollows | apps/web/lib/viewport.ts:63-68 | at the right edge an append keeps the width and ends the window on the newest bar |
| Viewport.WheelDirection | apps/web/components/PriceChart.tsx:349-350 | wheeling out never shows fewer bars, wheeling in never more than before or than the least number allowed |
| Viewport.RunKeepsWindow | apps/web/components/PriceChart.tsx:188-239 | any interleaving of data and user events keeps 1 <= visibleCount <= viewEnd <= n while there are bars |
| Viewport.StepKeepsInv | apps/web/components/PriceChart.tsx:226-232 | every single event keeps the window consistent, and zooming never shows fewer than min(20, n) bars |
| Viewport.RenderedRangeIff | apps/web/components/PriceChart.tsx:234-236 | for arbitrary stale state the drawn range lies in the data exactly when the count is not negative |
| Viewport.NextWithinData | apps/web/lib/viewport.ts:35-71 | whatever the state before, the window that follows data lies within it |
| Viewport.WheelKeepsAnchor | apps/web/components/PriceChart.tsx:339-355 | an unclamped wheel zoom keeps its anchor position within half a bar of its place on screen |
| ChartGeometry.AnchorIsUnderPointer | apps/web/components/PriceChart.tsx:339-348 | the anchor is the bar the crosshair picks under the pointer, and left or right of the plot the oldest or newest edge on screen |
| ChartGeometry.WheelKeepsBarUnderPointer | apps/web/components/PriceChart.tsx:339-355 | after an unclamped wheel zoom in the plot, what was under the pointer is drawn within half a slot of it |
| Viewport.WheelExample | apps/web/components/PriceChart.tsx:349-353 | a hundred bars: a step out wants 115, a step in leaves 87, at the right edge the newest ones |
| Viewport.ZoomWindow | apps/web/components/PriceChart.tsx:226-232 | a button zoom keeps the right edge when enough bars lie before it and otherwise shows the oldest ones |
| Viewport.ZoomExact | apps/web/components/PriceChart.tsx:226-232 | a whole number of bars from 20 up to all is shown as asked, and never less than 20 unless there are fewer |
| Viewport.DragMovesBars | apps/web/components/PriceChart.tsx:362-374 | pressing moves nothing, and dragging by the width of k bars moves the window by k bars, as far as there are any |
| Viewport.StaleStateDrawn | apps/web/components/PriceChart.tsx:234-236 | stale state is drawn as the nearest window: the newest, the oldest or all bars |
| Viewport.MountedShowsAll | apps/web/components/PriceChart.tsx:189-190 | the chart opens on all its bars |
| Viewport.PanIsMonotoneAndReturns | apps/web/components/PriceChart.tsx:362-374 | dragging right never shows newer bars, and returning the pointer restores the window |
| Viewport.PriceChartView.DataArrived | apps/web/components/PriceChart.tsx:207-224 | the data effect performs exactly one specified arrival and keeps the state valid |
| Viewport.PriceChartView.OnWheel | apps/web/components/PriceChart.tsx:339-356 | the wheel handler performs exactly one specified step |
| Viewport.PriceChartView.OnPointerMove | apps/web/components/PriceChart.tsx:366-374 | the drag handler performs exactly one specified step |
| Viewport.PriceChartView.ZoomTo | apps/web/components/PriceChart.tsx:226-232 | the zoom buttons perform exactly one specified step |
| ChartGeometry.PriceRange | apps/web/components/PriceChart.tsx:252-276 | the scans return the least and the greatest of the visible lows and highs, shown bands and accepted levels |
| ChartGeometry.ScannedInside | apps/web/components/PriceChart.tsx:252-286 | for positive prices every bar and accepted level is drawn strictly inside the price panel, flat data included; no lower band value falls below it and no upper one above it, and whatever lies between a lower and an upper one, the middle band too, is inside |
| ChartGeometry.OverlayInsideIff | apps/web/components/PriceChart.tsx:640-650 | a moving average is drawn inside the panel exactly when it lies within the padding of the scanned range, and a lone band value exactly when it respects the edge it does not set |
| ChartGeometry.OverlayOutsideExample | apps/web/components/PriceChart.tsx:252-286 | with one bar from 1 to 2 an average at 3, or a lone lower band value at 3, is drawn above the panel |
| ChartGeometry.InsideIff | apps/web/components/PriceChart.tsx:286 | a value is drawn inside the panel exactly when it lies strictly inside the padded range, each edge on its own |
| ChartGeometry.YMainReverses | apps/web/components/PriceChart.tsx:286 | a higher price is drawn strictly higher, and conversely |
| ChartGeometry.ProperScaleIff | apps/web/components/PriceChart.tsx:277-279 | the padded range is a proper scale exactly when prices differ or the single price is not negative |
| ChartGeometry.TurnedOverExample | apps/web/components/PriceChart.tsx:277-286 | one bar at the price -1 draws the lower price higher |
| ChartGeometry.HoverPicksSlot | apps/web/components/PriceChart.tsx:514-521 | the crosshair picks bar i exactly on bar i's slot, and at the centre x(i) in particular |
| ChartGeometry.TimeTicks | apps/web/components/PriceChart.tsx:324-330 | at most six labels, strictly left to right, from the first visible bar to the last |
| ChartGeometry.TicksEven | apps/web/components/PriceChart.tsx:324-330 | every label is within half a bar of its even share of the way |
| ChartGeometry.CentreIsMiddle | apps/web/components/PriceChart.tsx:285 | a bar's x is the middle of its slot |
| ChartGeometry.ScaleExamples | apps/web/components/PriceChart.tsx:277-286 | four percent of padding, a thousandth of a flat price, or one; top and bottom of the panel |
| PathSegments.Split | apps/web/components/TrendChart.tsx:59-72 | the loop returns the maximal runs of finite values |
| PathSegments.RunsUnique | apps/web/components/PriceChart.tsx:421-435 | there is only one list of maximal runs |
| PathSegments.RunsKeepEveryPoint | apps/web/components/TrendChart.tsx:59-72 | joined together the segments are the finite points in order |
| PathSegments.TrendInside | apps/web/components/TrendChart.tsx:52-65 | every value is drawn between the two guide lines, the minimum on the lower one, higher values strictly higher |
| PathSegments.TrendEdges | apps/web/components/TrendChart.tsx:51-65 | the greatest value lies on the upper guide line, the middle halfway, the least and a flat series on the lower one |
| PathSegments.TrendSpread | apps/web/components/TrendChart.tsx:52-62 | the values are spread evenly from one side to the other |
| OrderLedger.ReplayAppends | services/python/src/persistence/order_state_store.py:39-59 | loading a file with appended records gives the memory those records were put into |
| OrderLedger.ClosingEffect | services/python/src/persistence/order_state_store.py:83-166 | a close rewrites one record: the last owner of the ticket in dictionary order, and only if it is open |
| OrderLedger.ClosesThatTicket | services/python/src/persistence/order_state_store.py:116-166 | closing an integer ticket leaves every record of another integer ticket as it was, and closes the ticket's last open record |
| OrderLedger.IntegerKeysDiffer | services/python/src/persistence/order_state_store.py:116-124 | different integer tickets never compare equal as text |
| OrderLedger.TextKeys | services/python/src/persistence/order_state_store.py:116-124 | a text ticket compares equal to an integer one exactly when it is its decimal text, and to no ticket exactly when it reads None |
| OrderLedger.DecimalIsDigits | services/python/src/persistence/order_state_store.py:116 | decimal texts without leading zeros and numbers correspond one to one |
| OrderLedger.LowerAlphabet | services/python/src/persistence/order_state_store.py:131 | lower-casing maps the capitals to the small letters and nothing else |
| OrderLedger.EnteredFrom | services/python/src/execution/state_machine.py:35-57 | from which states each state can be entered |
| OrderLedger.StateNames | services/python/src/execution/state_machine.py:22-32 | the ten names and the ten states correspond one to one |
| StaleSelection.CandidatesAreTheStale | scripts/ledger_close_stale.py:143-197 | the candidates are exactly the open, ticketed, filter-matching, broker-absent records, ordered by ticket |
| StaleSelection.OtherTicketsStayListed | scripts/ledger_close_stale.py:180-185 | a position the broker holds keeps its own integer ticket off the list and no other, and a filter keeps its own only |
| StaleSelection.StrLeIff | scripts/ledger_close_stale.py:196 | the order of texts is that of a dictionary: the first difference decides, a prefix comes first |
| StaleSelection.SortedIsStable | scripts/ledger_close_stale.py:196 | the order is by ticket text, and log order within a ticket |
| StaleSelection.BackfillCloses | scripts/ledger_close_stale.py:200-210 | an applied run changes exactly the open last owners of listed tickets, each to one closed record, and replaying what it appended gives the same memory |
| StaleSelection.BrokerTicketsUntouched | scripts/ledger_close_stale.py:183-185 | no record of a ticket the broker holds is changed and none is appended |
| StaleSelection.StaleAfterBackfill | scripts/ledger_close_stale.py:200-210 | what stays stale are the stale records that were not the last owner of their ticket |
| StaleSelection.SecondRunFindsNoneIff | scripts/ledger_close_stale.py:26-27 | a second run on the same store finds no candidates exactly when every stale record was the last owner of its ticket |
| StaleSelection.SecondRunWritesNothing | scripts/ledger_close_stale.py:200-210 | a second application to the same memory never appends anything |
| BackfillRuns.SecondProcessFindsNoneIff | scripts/ledger_close_stale.py:291-335 | after any first process, a second one lists nothing exactly when the first got every close into the file and every stale record owned its ticket last, and leaves the file alone exactly when the first got every close in, the file has a corrupt line, it is a dry run, or its own first append is refused |
| BackfillRuns.SecondRunClosesRest | services/python/src/persistence/order_state_store.py:185-204 | wherever the first run's appends stopped, the second closes exactly the intents that are left |
| BackfillRuns.NoDuplicateCloses | scripts/ledger_close_stale.py:26-27 | any number of runs, with any broker answers, filters, failing reads and failing appends, only append closed records, at most one per intent, for intents open at the start |
| BackfillRuns.RefusedThenTakenExample | services/python/src/persistence/order_state_store.py:185-204 | the file refuses the first process and takes the second, which lists the record again and closes it |
| BackfillRuns.ExitCodes | scripts/ledger_close_stale.py:291-340 | 2 exactly for a missing ledger or an unverified read, 1 exactly for an exception, and with either nothing listed or written |
| BackfillRuns.BrokenReadIgnoresRest | services/python/src/persistence/order_state_store.py:57-59 | a reading that breaks off lists what the lines before hold and writes nothing |
| StaleSelection.SharedTicketExample | scripts/ledger_close_stale.py:26-27 | two open intents on one ticket leave a candidate behind |
| OrderStore.OrderStateStore.constructor | services/python/src/persistence/order_state_store.py:30-59 | a fresh store is the replay of the lines it could read, and unhealthy exactly when one was corrupt or the reading broke off |
| OrderStore.OrderStateStore.AppendLine | services/python/src/persistence/order_state_store.py:185-204 | a line is written exactly when the store is healthy and the file takes it, a refusal makes the store unhealthy, and an unhealthy store does not try |
| OrderStore.OrderStateStore.SetOrder | services/python/src/persistence/order_state_store.py:66-81 | memory gets the updated record, the file too while durable, and a healthy store stays the replay of its file |
| OrderStore.OrderStateStore.MarkClosed | services/python/src/persistence/order_state_store.py:83-166 | the in-memory close, its result, and the one line that reaches the file if the store is healthy |
| OrderStore.StaleBackfill.SelectStaleCandidates | scripts/ledger_close_stale.py:143-197 | the loop returns the specified candidates and both skip counters |
| OrderStore.StaleBackfill.ApplyBackfill | scripts/ledger_close_stale.py:200-210 | the loop's effect on memory, its count, and that the file gets the closes before the first refused append |
| OrderStore.StaleBackfill.Run | scripts/ledger_close_stale.py:291-335 | exit code 2 for a missing ledger or an unverified read, 1 for an exception, an unchanged file for these and for a dry run, and otherwise the specified process |
| Recovery.SetOrderEffect | services/python/src/persistence/order_state_store.py:66-81 | an update gives its intent the new state and keeps its ticket unless given one, and leaves other intents alone |
| Recovery.ReplayIsLatest | services/python/src/persistence/order_state_store.py:39-59 | the store holds for each intent exactly its last record in the file |
| Recovery.RehydratesIff | scripts/b4_demo_validation.py:1160-1166 | the fresh store knows a ticket exactly when some intent's last record carries it |
| Recovery.ScanWithoutStoreIff | scripts/b4_demo_validation.py:1184-1189 | success before a restart is not followed by success after it exactly when every intent that carried the ticket ends without it |
| Recovery.StoreWithoutScanIff | scripts/b4_demo_validation.py:1087-1096 | success after a restart was not preceded by success before it exactly when some intent ends on the ticket and every line with it holds a separator the raw scan splits at |
| Recovery.HiddenFromScanExample | scripts/b4_demo_validation.py:1087-1096 | a reason with U+2028 hides a record from the scan |
| Recovery.UnbrokenLaws | scripts/b4_demo_validation.py:1087 | which characters split a line that json.dumps has written: U+0085, U+2028 and U+2029 anywhere in it |
| Recovery.ScanIsLastHolder | scripts/b4_demo_validation.py:1098-1110 | the raw scan gives the record of the ticket's last line that it can read |
| Recovery.ScanAgreesWithStore | scripts/b4_demo_validation.py:1098-1110 | if no intent drops or changes its ticket, what the scan finds the store finds, and conversely exactly when the scan can read some line of the ticket, or there is none |
| Recovery.LookupsAgreeIff | scripts/b4_demo_validation.py:1075-1110 | for every file and every ticket in it, scan and store give the same record exactly when the ticket's last line is its intent's last and no other intent that ends on the ticket was seen first |
| Recovery.LookupsAgreeWhenKept | scripts/b4_demo_validation.py:1160-1166 | if no intent drops or changes its ticket, exactly when the last line the scan reads is its intent's last, as it is unless a line is hidden, and no other intent that ever carried the ticket was seen before |
| Recovery.ReplayOrder | services/python/src/persistence/order_state_store.py:39-59 | the loaded dictionary lists intents in the order of their first lines |
| Recovery.TwoOwnersDisagree | scripts/b4_demo_validation.py:1160-1166 | with two owners the two lookups can report different states |
| Recovery.StoreRunsSurviveRestart | services/python/src/persistence/order_state_store.py:66-166 | after any operations the file replays to memory; if none re-tickets an intent, success before a restart carries over, and conversely if no text holds a separator beyond ASCII |
| Recovery.ClosesLatestRecordIff | services/python/src/persistence/order_state_store.py:96-127 | for every file, a close resolves to the record on the ticket's last line exactly when that line is its intent's last and every other intent that ends on the ticket was seen earlier |
| Recovery.ReopenedNeverCloses | services/python/src/persistence/order_state_store.py:96-98 | a ticket whose last record is open can still refuse to close |
| DemoHarness.SubmitOnlyThroughGates | scripts/b4_demo_validation.py:1493-1545 | an order is submitted exactly when every gate was open, after the DEMO guard, market check, own-position guard, arming and a clean order check, and once |
| DemoHarness.ExitCodeMeans | scripts/b4_demo_validation.py:1544-1566 | the exit code is 2 exactly after an abort and 1 exactly after any other exception, each the last step recorded |
| DemoHarness.EitherMarkStops | scripts/b4_demo_validation.py:331-338 | a position with the magic number or the comment, or an account not in DEMO mode, stops the run |
| DemoHarness.OthersDoNotStop | scripts/b4_demo_validation.py:331-338 | a position with neither mark makes no difference |
| DemoHarness.OrdersBounded | scripts/b4_demo_validation.py:326-352 | over any number of runs with outside closes and foreign positions in between, the harness positions open are at most those at the start, or one, plus one per run whose guard misread the book |
| DemoHarness.AtMostOneOrder | scripts/b4_demo_validation.py:331-352 | at most one harness position is open while no guard takes a failed read for an empty book |
| DemoHarness.OutsideMay | scripts/b4_demo_validation.py:331-338 | what may happen outside the runs includes nothing, a close, and a position without the harness's marks |
| DemoHarness.SecondOrderIff | scripts/b4_demo_validation.py:327-329 | with one position open a second is opened exactly when the read failed, every other gate was open and the engine filled |
| DemoHarness.SecondOrderExample | scripts/b4_demo_validation.py:327-329 | two runs from an empty book, the second with a failed read, leave two orders |
| DemoHarness.CrashIsFoundNextRun | scripts/b4_demo_validation.py:1556-1564 | an exception out of the engine, the verification or the last evidence write exits with 1 and may leave a position, which the next run that reads the book finds and does not add to |
| DemoHarness.B4Validation.Run | scripts/b4_demo_validation.py:1493-1571 | exit code, recorded steps, result and broker book are those of the specified run |
| DemoHarness.B4Validation.FindOwnPosition | scripts/b4_demo_validation.py:331-338 | finds a position exactly when one with the harness magic or comment was read |
| DemoHarness.B4Validation.SubmitAndVerify | scripts/b4_demo_validation.py:577-661 | one engine call, which may raise with the position open, then the poll, which may raise too, with their records, aborts and crashes |
| PaperTrading.ComputeEma | scripts/run_forward_validation.py:238-249 | the one-pass loop gives the average at every bar from the period-th on, and nothing before |
| PaperTrading.EmaClosedForm | scripts/run_forward_validation.py:243-248 | the average is the seed mean and the later closes with geometrically decaying weights |
| PaperTrading.WeightShares | scripts/run_forward_validation.py:243 | the newest close weighs 2 parts in period + 1, the rest the other period - 1 |
| PaperTrading.EmaExample | scripts/run_forward_validation.py:238-249 | period 3 over 1, 2, 3, 6 gives nothing twice, then 2 and 4 |
| PaperTrading.EmaBetween | scripts/run_forward_validation.py:243-248 | every average lies between any bounds of the closes seen so far |
| PaperTrading.EmaAffine | scripts/run_forward_validation.py:243-248 | averaging commutes with every affine change of the prices |
| PaperTrading.EmaCausal | scripts/run_forward_validation.py:243-248 | an average depends on no later close |
| PaperRun.TradesFollowTheLines | scripts/run_forward_validation.py:267-327 | over the averages of 5 and 13 bars: never two positions at once, none before bar 13; each opened on a cross at that bar's fill, in favour at every bar since, closed at the close of the first bar strictly against it or of the last bar; every fillable cross lies in a trade |
| PaperRun.CrossLaws | scripts/run_forward_validation.py:289-290 | a cross up goes from not above to above, and a cross down is one with the averages exchanged |
| PaperRun.CrossBetween | scripts/run_forward_validation.py:289-290 | between a bar where the fast average is not above and a later one where it is there is a cross up |
| PaperRun.ReadyFrom | scripts/run_forward_validation.py:281-287 | the averages exist from the thirteenth bar on and crosses one bar later |
| PaperRun.TradesAffineInvariant | scripts/run_forward_validation.py:289-290 | a positive affine price change leaves side, entry and exit of every trade as they were |
| PaperRun.RunCausal | scripts/run_forward_validation.py:280-318 | what is traded and held before a bar depends only on earlier closes and fills |
| PaperRun.RunPaper | scripts/run_forward_validation.py:277-332 | the loop realises exactly the profits of those trades, leaves nothing open, and the balance grows by the rise from fill to close of every BUY and the fall of every SELL, times the size |
| PaperRun.PnlLaws | services/python/src/paper/simulated_execution.py:396-403 | a BUY gains exactly when closed above its entry, a SELL is its negative, gains add up along the way and with the size, one unit on one lot is one |
| PaperRun.PaperAccount.ClosePosition | services/python/src/paper/simulated_execution.py:371-420 | closing the one open position books its profit on the balance |
| PaperRun.PaperAccount.RemovePosition | services/python/src/paper/paper_account.py:174-181 | removes the first position on that side, or nothing |
| Escalation.RunWithEscalation | scripts/run_research_validation.py:163-199 | the loop ends, at the first request that stops it, with that attempt's report |
| Escalation.StopsOrGoesOn | scripts/run_research_validation.py:165-199 | the loop goes on exactly after at least 60 closes with too few trades below the cap |
| Escalation.RequestIsDoubled | scripts/run_research_validation.py:199 | the j-th later request is min(min_bars * 2^j, max_bars) |
| Escalation.EscalationBounds | scripts/run_research_validation.py:165-199 | an ok report has enough trades or asked for the cap, and the number of runs grows with log2(max / min) |
| Escalation.CapReachedIff | scripts/run_research_validation.py:199 | the doubling reaches the cap exactly when it starts at one or more, or at the cap already |
| Heartbeat.CountsAreOpenSockets | apps/api/src/middleware/rateLimiter.ts:84-93 | after any history an address's counter is the number of its accepted sockets still open |
| Heartbeat.SweepTerminatesSilent | apps/api/src/middleware/websocket.ts:127-139 | a sweep terminates an accepted socket exactly when it sent no pong since the sweep before |
| Heartbeat.SilentGoneBySecondSweep | apps/api/src/middleware/websocket.ts:127-139 | a socket silent between two sweeps is gone by the second, whatever else happens |
| Heartbeat.RefusedSocketsIgnorePongs | apps/api/src/liveStream.ts:113-120 | after any history a sweep terminates an open socket whose upgrade was refused exactly when another sweep came since it connected, whatever it sent |
| Heartbeat.RefusedExample | apps/api/src/liveStream.ts:113-120 | between two sweeps a pong saves an accepted socket and not a refused one |
| Heartbeat.CloseFreesOneSlot | apps/api/src/middleware/rateLimiter.ts:88-93 | in every history the counter of a closing accepted socket is positive, so its close frees exactly one slot of its address and touches no other |
| Heartbeat.WSServer.OnUpgrade | apps/api/src/middleware/websocket.ts:102-122 | accepting counts and marks alive, refusing does neither |
| Heartbeat.WSServer.OnSweep | apps/api/src/middleware/websocket.ts:127-139 | one pass over the clients, in any order, is one specified sweep |
| LiveStream.NormalStays | apps/api/src/liveStream.ts:66-70 | a string is its own normal form exactly when it is a valid symbol |
| LiveStream.NormaliseIgnores | apps/api/src/liveStream.ts:66-70 | neither case nor white space around a symbol makes a difference |
| LiveStream.UpperAlphabet | apps/api/src/liveStream.ts:67 | upper-casing maps the small letters to the capitals and nothing else |
| LiveStream.SymbolTable | apps/api/src/liveStream.ts:68 | a symbol is 1 to 32 capitals, numerals or one of five signs |
| LiveStream.JsSpaceTable | apps/api/src/liveStream.ts:67 | the white space that trimming removes, one by one |
| LiveStream.SubscriptionExample | apps/api/src/liveStream.ts:139-157 | " eurusd", "bad!" and "EURUSD" come to one symbol, and nothing valid to the five defaults |
| LiveStream.TwelveAtMost | apps/api/src/liveStream.ts:143-148 | twelve symbols are kept of twelve or more |
| LiveStream.DistinctInOrder | apps/api/src/liveStream.ts:143-148 | every wanted symbol is kept once, in the order of first request |
| LiveStream.SubscriptionIsGood | apps/api/src/liveStream.ts:143-149 | whatever is asked for, the list is non-empty, at most twelve, valid and without repetition |
| LiveStream.LiveServer.Pick | apps/api/src/liveStream.ts:143-148 | the loop with its early exit returns the first twelve distinct valid symbols |
| LiveStream.LiveServer.OnSubscribe | apps/api/src/liveStream.ts:139-157 | only the asking client's list changes, to its subscription or the defaults |
| LiveStream.LiveServer.WatchedSymbols | apps/api/src/liveStream.ts:164-168 | exactly the symbols some client watches |
| LiveStream.LiveServer.Publish | apps/api/src/liveStream.ts:170-175 | every target's symbols are fetched, and nothing no target asked for |
| EnvBootstrap.ParseRenderedIff | services/python/src/env_bootstrap.py:51-75 | a double-quoted line reads back as the pair it was written from exactly when the key is plain, whatever the value holds |
| EnvBootstrap.UnquotedIff | services/python/src/env_bootstrap.py:51-75 | KEY=VALUE reads back exactly when the key is plain and the value is trimmed and not quoted |
| EnvBootstrap.QuotedIff | services/python/src/env_bootstrap.py:51-56 | with either quote around it any value reads back exactly when the key is plain |
| EnvBootstrap.ExportChangesNothing | services/python/src/env_bootstrap.py:66-67 | `export` in front of a plain key changes nothing |
| EnvBootstrap.PaddingChangesNothing | services/python/src/env_bootstrap.py:63 | white space around a line changes nothing |
| EnvBootstrap.IgnoredLines | services/python/src/env_bootstrap.py:64-73 | blank lines, comments, lines without '=' and lines without a key give nothing |
| EnvBootstrap.SpaceTable | services/python/src/env_bootstrap.py:62-63 | Python's white space and line breaks, one by one |
| EnvBootstrap.SplitAtBreak | services/python/src/env_bootstrap.py:62 | a line ends at each of the separators Python splits at, and a carriage return with a newline is one |
| EnvBootstrap.FileRoundTripIff | services/python/src/env_bootstrap.py:59-75 | a list of pairs survives being written to a file and parsed exactly when every key is plain and no key or value holds a line separator |
| EnvBootstrap.TwoLineValueIsLost | services/python/src/env_bootstrap.py:62 | a value of two lines does not survive |
| EnvBootstrap.LoadGivesExpected | services/python/src/env_bootstrap.py:98-104 | explicit values stay, other mentioned keys get their first non-empty file value, the rest is untouched, duplicates included |
| EnvBootstrap.LoadTwice | services/python/src/env_bootstrap.py:11-17 | a second load leaves the environment as it is |
| EnvBootstrap.LoadSurvivesIff | services/python/src/env_bootstrap.py:98-104 | the load ends without raising exactly when no key still to be filled has a NUL in it or in its first non-empty value; then it fills everything, and otherwise everything before the first pair it cannot store |
| EnvBootstrap.LoadAgain | services/python/src/env_bootstrap.py:98-104 | a second load changes nothing and ends as the first did, raising or not |
| EnvBootstrap.NulStopsLoad | services/python/src/env_bootstrap.py:14-17 | one NUL in a file keeps a later key from being set |
| EnvBootstrap.CountIsKeysIff | services/python/src/env_bootstrap.py:84-86 | the returned count is the number of keys filled exactly when no blank fill is followed by another mention, and larger otherwise |
| EnvBootstrap.BlankCountedTwice | services/python/src/env_bootstrap.py:84-86 | a blank and then a value for one key count as two |
| EnvBootstrap.Process.LoadRuntimeEnv | services/python/src/env_bootstrap.py:78-108 | the loop leaves the specified environment and count, or raises where specified with what was filled so far, and a missing file changes nothing |
| Viewport.ReloadShowsOneBar | apps/web/lib/viewport.ts:41-61 | data returning after an empty load of the same dataset shows one bar, the newest |
| Viewport.ReloadExample | apps/web/lib/viewport.ts:41-61 | two bars, an empty load and the two bars again show one of them |
| Viewport.ReplacedDataShows | apps/web/lib/viewport.ts:43-52 | another dataset is shown whole, and a shrunk one shows its latest bars |
| Viewport.ButtonsShow | apps/web/components/PriceChart.tsx:462-480 | "show all" shows every bar and "latest" the newest ones at the same width |
| ImportTheorems.AliasKeepsSpecIff | services/python/src/_unify_imports.py:54-66 | an alias import restores the spec exactly when the object had one |
| DemoHarness.CleanExitMeans | scripts/b4_demo_validation.py:1509-1545 | exit code 0 means already validated, a passed dry run, or a fill seen at the broker whose evidence was written |
| LiveStream.QuotesPositive | apps/api/src/liveStream.ts:192-207 | no price field ever carries a number that is not positive; bid, ask and last keep theirs when it is, and last falls back to bid and then ask |

## Left out

- Namespace packages without `__init__.py`, symbolic links and case-insensitive file names below src/: a dotted path is one file.
- Module bodies that raise, `None` entries and explicit deletions in `sys.modules`, the module's `__loader__` field, and attribute binding on the parent package.
- A conditional import list: a body's imports depend on its file and loading name, not on the state.
- Floating-point rounding: prices, coordinates and averages are reals, with exact half-up rounding.
- The MACD and RSI scales, zones, body widths, price formatting and the hover state of the chart; the price scan stands for the other scans.
- React scheduling: each handler and the data effect is one atomic step.
- Path strings with fixed decimals: segments are lists of bar indices.
- Timestamps, record fields other than intent, state, ticket and reason, and two processes writing one ledger at the same time.
- Aliasing between the store's dictionary and the records it hands out, and lock scheduling.
- JSON parsing of ledger lines, tickets that are neither integers nor strings, separators in record fields the model leaves out, and an append that fails after part of its line is in the file.
- The content of the harness's evidence files, request arithmetic, reconciliation runner and connector; the engine is a parameter that opens at most one position per call.
- `run_demo` in the forward validation, Monte Carlo and sensitivity runs, equity and margin bookkeeping, trade statistics, and post-trade review hooks of the paper account.
- Spread and slippage: a paper fill is a price, or none, given per bar.
- JWT verification, token extraction, message validation and HTTP rate limits; `wsRateLimitCheck` is never called by the source.
- Interleavings inside an asynchronous publish: a client that resubscribes while quotes are fetched gets the earlier set.
- Case mapping of non-ASCII characters in symbols, and non-ASCII identifiers in module names.
- Environment keys on case-insensitive platforms, size limits of the environment block, and decoding of the file.
