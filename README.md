# Decision logic of a video web application

This project models in Dafny the parts of a React video web application that carry decision
logic. It covers four parts:

- **INI compaction** (`ini_compaction.dfy`, module `IniCompaction`). This is the line filter of the
  build script that shrinks the `.ini` configuration file. It drops full-line `;` comments, strips
  trailing comments and drops blank lines. It also removes the spaces and tabs around the first `=`.
  The model is a pure pipeline of functions on `seq<char>`, and it is proved to be a line-by-line
  transform. The comment cut is a parameter: `AsWritten` is what the regular expression `/;.*/`
  does, and `Corrected` removes the comment up to the end of the line (see "## Findings").
- **Build configuration** (`build_config.dfy`, module `BuildConfig`). This covers the Vite
  configuration function:
  - it normalises the mode;
  - it derives the local and template `.ini` paths;
  - it seeds a missing local file from its template;
  - it builds the list of files copied into the build output;
  - it decides whether lint errors fail the build;
  - it gives the `manualChunks` classifier.

  It also covers the path logic of the capacitor resolver plugin. The file system is a map from
  existing paths to contents, or a set of existing paths.
- **Checkout** (`checkout.dfy`, module `Checkout`). This covers the checkout step of the account
  modal. The pure selections are the offer type, the payment success URL, the selected payment
  method, the payment widget and the loading guard. The class `CheckoutSession` holds the component
  state: `updatingOrder`, `couponCodeApplied`, `paymentMethodId`, the payment error and the coupon
  form. Its methods are the handlers that set and reset that state around the remote order calls.
  Each remote call is modelled by its outcome, which is a parameter: resolved, rejected with an
  `Error` message, or rejected with something else. The calls made and the navigations requested are
  appended to logs.
- **Series screen** (`media_series.dfy`, module `MediaSeries`). This covers four things:
  - the wrapper's choice between loading, error, the legacy series page and the content;
  - the selected item and the episode in progress from the watch history;
  - the condition for fetching episodes;
  - the class `SeriesView`. It holds the query parameters, which the handlers and effects rewrite,
    and the season filter, which starts undefined.

`strings.dfy` gives substring search and JavaScript's first-occurrence `String.prototype.replace`.
`wrappers.dfy` gives `Option`.

## Model

| member | source | states |
|---|---|---|
| `IniCompaction.SplitLines` | scripts/compressIni.js:9 | `split('\n')` yields at least one line, and no line contains a line feed |
| `IniCompaction.JoinSplit` | scripts/compressIni.js:9-17 | joining the split lines with `\n` gives the text back |
| `IniCompaction.SplitJoin` | scripts/compressIni.js:9-17 | splitting the join of at least one line-feed-free line gives those lines back |
| `IniCompaction.SplitLinesChars` | scripts/compressIni.js:9 | every character of a split line occurs in the text |
| `IniCompaction.IsCommentLineMeaning` | scripts/compressIni.js:10 | a line is a full-line comment iff it is a run of spaces and tabs followed by `;` |
| `IniCompaction.CommentLineHasSemicolon` | scripts/compressIni.js:10 | a full-line comment contains `;` |
| `IniCompaction.CommentLineDropped` | scripts/compressIni.js:10 | for both cuts, a full-line comment contributes nothing, wherever it sits among the lines |
| `IniCompaction.CommentLineNeverInOutput` | scripts/compressIni.js:10 | for both cuts, no full-line comment is ever an output line |
| `IniCompaction.StripComment` | scripts/compressIni.js:12 | the corrected cut removes everything from the first `;` to the end of the line and keeps a final `\r`: the result has no `;`, starts with the part before the `;`, is one character longer exactly when the line ends in `\r`, and is the whole line when there is no `;` |
| `IniCompaction.LengthToTerminator` | scripts/compressIni.js:12 | `StripCommentAsWritten` (the program's `replace(/;.*/, '')`) removes from the first `;` up to this length; the `.*` of `/;.*/` runs exactly up to the first line terminator (`\n`, `\r`, U+2028, U+2029) |
| `IniCompaction.CutWithoutSemicolon` | scripts/compressIni.js:12 | for both cuts, a line without `;` is left as it is |
| `IniCompaction.CutKeepsPrefix` | scripts/compressIni.js:12 | for both cuts, the part of the line before the first `;` is kept |
| `IniCompaction.CutChars` | scripts/compressIni.js:12 | for both cuts, the cut introduces no character that was not in the line |
| `IniCompaction.CutKeepsNonComment` | scripts/compressIni.js:10-12 | for both cuts, cutting a line that is not a full-line comment never makes it one |
| `IniCompaction.TightenEqualsMeaning` | scripts/compressIni.js:16 | `TightenEquals` (the replacement of line 16): after tightening no space or tab touches the first `=`; a line without `=` is unchanged; there is an `=` after iff there was one before |
| `IniCompaction.TightenEqualsParts` | scripts/compressIni.js:16 | the text before the first `=` loses only its trailing blanks and the text after it only its leading blanks |
| `IniCompaction.TightenEqualsChars` | scripts/compressIni.js:16 | tightening introduces no character that was not in the line |
| `IniCompaction.TightenKeepsNonComment` | scripts/compressIni.js:10-16 | tightening a line that is not a full-line comment never makes it one |
| `IniCompaction.TightLineFixed` | scripts/compressIni.js:16 | a line with no blank beside its first `=` is left unchanged by the replacement |
| `IniCompaction.StagesAreLineByLine` | scripts/compressIni.js:8-17 | `CleanIniLines`, the lines of `CleanIni` (the corrected compaction) and of `CleanIniAsWritten` (the program's compaction): for both cuts, the filter, map, filter, map chain equals cleaning each line on its own and dropping the lines not kept |
| `IniCompaction.StagesOfOneLine` | scripts/compressIni.js:8-17 | for both cuts, the chain on one line yields its cleaned form if the line is kept, and nothing otherwise |
| `IniCompaction.CleanIniLinesByLine` | scripts/compressIni.js:8-17 | for both cuts, the output lines are the line-by-line cleaning of the split input |
| `IniCompaction.CleanLinesConcat` | scripts/compressIni.js:8-17 | for both cuts, cleaning distributes over concatenation, so output lines keep the order of their source lines |
| `IniCompaction.CleanLinesSingle` | scripts/compressIni.js:8-17 | for both cuts, one line yields its cleaned form if it is kept, and nothing otherwise |
| `IniCompaction.CleanLinesLength` | scripts/compressIni.js:8-17 | for both cuts, cleaning never yields more lines than it is given |
| `IniCompaction.OutputNoLongerThanInput` | scripts/compressIni.js:8-17 | for both cuts, the output has no more lines than the input |
| `IniCompaction.CleanLineIsClean` | scripts/compressIni.js:10-16 | for both cuts, a cleaned line is not a comment line, is not blank, is tight around its first `=`, and uses only characters of its source line; with the corrected cut it has no `;` |
| `IniCompaction.CleanLineFixed` | scripts/compressIni.js:10-16 | for both cuts, a line with no `;` that is tidy is kept and cleaned to itself |
| `IniCompaction.CleanLinesFixed` | scripts/compressIni.js:8-17 | for both cuts, cleaning such lines returns them unchanged |
| `IniCompaction.CleanLinesAreClean` | scripts/compressIni.js:8-17 | for both cuts, every line cleaning yields from line-feed-free lines is tidy and free of line feeds; with the corrected cut it has no `;` |
| `IniCompaction.OutputLinesAreClean` | scripts/compressIni.js:8-17 | for both cuts, no output line contains a line feed, is blank, is a comment line, or has a space or tab next to its first `=`; with the corrected cut no output line contains `;` |
| `IniCompaction.PlainLinePassesThrough` | scripts/compressIni.js:8-17 | for both cuts, a non-blank line without `;`, `=` or line feed passes through unchanged |
| `IniCompaction.CleanIniIdempotent` | scripts/compressIni.js:8-17 | `CleanIni`: with the corrected cut, cleaning an already cleaned text returns it unchanged |
| `IniCompaction.CrlfPieces` | scripts/compressIni.js:9 | every piece of the split of an LF or CRLF text has no line terminator except a final `\r` |
| `IniCompaction.CommentRunsToLineEnd` | scripts/compressIni.js:12 | on a line of an LF or CRLF file, the `.*` after a `;` runs to the end of the line, stopping only before a final `\r` |
| `IniCompaction.CutAgrees` | scripts/compressIni.js:12 | on a line of an LF or CRLF file, the regular expression as written and the corrected cut give the same line |
| `IniCompaction.AsWrittenAgreesOnCrlfText` | scripts/compressIni.js:12 | `CleanIniAsWritten` equals `CleanIni`: on any LF or CRLF text without U+2028 and U+2029, the compaction as written and the corrected one give the same output |
| `IniCompaction.StripCommentCrlf` | scripts/compressIni.js:12 | the corrected cut of a line of an LF or CRLF file is again such a line |
| `IniCompaction.TightenEqualsCrlf` | scripts/compressIni.js:16 | tightening a line of an LF or CRLF file gives such a line |
| `IniCompaction.CleanLinesCrlf` | scripts/compressIni.js:8-17 | the corrected cleaning of lines of an LF or CRLF file yields only such lines |
| `IniCompaction.JoinCrlf` | scripts/compressIni.js:17 | joining lines of an LF or CRLF file with `\n` gives an LF or CRLF text |
| `IniCompaction.CleanIniKeepsCrlf` | scripts/compressIni.js:8-17 | `CleanIni` of an LF or CRLF text is again an LF or CRLF text |
| `IniCompaction.AsWrittenIdempotentOnCrlfText` | scripts/compressIni.js:8-17 | `CleanIniAsWritten`, the program's compaction, is idempotent on every LF or CRLF text without U+2028 and U+2029 |
| `IniCompaction.AsWrittenSingleLine` | scripts/compressIni.js:8-17 | a single non-comment line whose as-written cut is non-blank and has no `=` is output as that cut |
| `IniCompaction.CutOfFirstLine` | scripts/compressIni.js:12 | as written, `a;\r;` is cut to `a\r;` |
| `IniCompaction.CutOfSecondLine` | scripts/compressIni.js:12 | as written, `a\r;` is cut to `a\r` |
| `IniCompaction.FirstPass` | scripts/compressIni.js:8-17 | as written, the text `a;\r;` compacts to `a\r;` |
| `IniCompaction.SecondPass` | scripts/compressIni.js:8-17 | as written, the text `a\r;` compacts to `a\r` |
| `IniCompaction.AsWrittenKeepsSemicolonAfterCarriageReturn` | scripts/compressIni.js:12 | as written, the output of `a;\r;` still contains `;`, and compacting it again changes it |
| `Strings.ReplaceFirst` | vite.config.ts:24-26 | `replace` with a string pattern changes only the first occurrence, and nothing without one |
| `BuildConfig.ShortModeName` | vite.config.ts:63-64 | a normalised mode is never `development` or `production` |
| `BuildConfig.NormalizeMode` | vite.config.ts:63-64 | `development` becomes `dev`, `production` becomes `prod`, every other mode is kept |
| `BuildConfig.ShortModeNameIdempotent` | vite.config.ts:63-64 | normalising twice is normalising once |
| `BuildConfig.IniPathsDetermineMode` | vite.config.ts:66-67 | different modes have different local `.ini` paths and different template paths |
| `BuildConfig.LocalIsNeverATemplate` | vite.config.ts:66-67 | no local `.ini` path is the template path of any mode |
| `BuildConfig.SeedLocalIni` | vite.config.ts:73-75 | the local file exists afterwards iff it or the template existed; an existing local file is never overwritten; a seeded file has the template's contents; no other file changes |
| `BuildConfig.SeedLocalIniIdempotent` | vite.config.ts:73-75 | seeding twice is seeding once |
| `BuildConfig.FileCopyTargets` | vite.config.ts:83-97 | the first target is the local `.ini` renamed to `.webapp.ini`; the test EPG data is added iff the mode is not `prod` |
| `BuildConfig.Configure` | vite.config.ts:60-103 | the mode is normalised first; files are seeded; `NODE_ENV` is forced iff the command is `build`; the `.ini` target's source exists iff the local file or the template existed; the copied files are exactly the `.ini` target, followed by the test data unless the mode is `prod`, so `production` and `prod` never copy the test data; lint errors fail the build, by the rule as written, only for `demo` and `preview` |
| `BuildConfig.ProductionNeverEmitsLintErrors` | vite.config.ts:103 | `EmitLintErrorsAsWritten` (the program's `emitError`): as written, after normalisation only `demo` and `preview` fail the build on lint errors, and `production` never does |
| `BuildConfig.ProductionEmitsLintErrors` | vite.config.ts:103 | `EmitLintErrors` (the corrected `emitError`): with the corrected comparison, `production`, `prod`, `demo` and `preview` fail the build on lint errors |
| `BuildConfig.ManualChunk` | vite.config.ts:142-159 | the first matching rule wins: `react` iff a React marker occurs; `inplayer` iff no React marker occurs and `@inplayer` does; `vendor` for the rest of `/node_modules/`; `index` iff the id is outside `/node_modules/` |
| `BuildConfig.ReactModuleInNodeModules` | vite.config.ts:145-150 | every id in the `react` chunk contains `/node_modules/` |
| `BuildConfig.MarkerInNodeModules` | vite.config.ts:145-156 | every package marker lies inside `/node_modules/` |
| `BuildConfig.CleanSpecifier` | vite.config.ts:22 | the specifier without its query has no `?`, is a prefix of the specifier, and stops at the first `?` |
| `BuildConfig.CleanSpecifierOfQuery` | vite.config.ts:22 | a path followed by a query is cleaned to the path |
| `BuildConfig.ModuleScssVariant` | vite.config.ts:24-26 | `ScssCapacitorPath` (the two `replace` calls of lines 24-26): `<base>.module.scss` with any query has the variant `<base>.capacitor.module.scss` |
| `BuildConfig.ScssVariant` | vite.config.ts:24-26 | `ScssCapacitorPath`: `<base>.scss`, whose query does not mention `.module.scss`, has the variant `<base>.capacitor.scss` |
| `BuildConfig.QueryMentioningModuleKeepsPath` | vite.config.ts:24-26 | `ScssCapacitorPath`: a query that mentions `.module.scss` leaves the variant path equal to the stylesheet itself |
| `BuildConfig.FirstOccurrenceAtEnd` | vite.config.ts:24-26 | when a name has no earlier occurrence of `.scss` (or `.module.scss`), the first occurrence in the name with that suffix appended is the appended one, so `replace` rewrites the suffix |
| `BuildConfig.ProbeCapacitorVariant` | vite.config.ts:45-54 | `.capacitor.ts` is tried before `.capacitor.tsx`; the first existing one is returned, and nothing when neither exists |
| `BuildConfig.ResolveId` | vite.config.ts:18-56 | a stylesheet with an importer resolves to its variant path if that exists and to `null` if not; an in-`src` specifier not imported by its own variant resolves to the first existing `.capacitor.ts`/`.tsx`; everything else is left unresolved |
| `Checkout.OfferTypeOf` | src/containers/AccountModal/forms/Checkout.tsx:45 | `tvod` iff an offer is present and is not SVOD; no offer counts as `svod` |
| `Checkout.OfferTypeName` | src/containers/AccountModal/forms/Checkout.tsx:45 | the offer type's name is never empty |
| `Checkout.PaymentSuccessUrl` | src/containers/AccountModal/forms/Checkout.tsx:47-52 | `/` while offers are being purchased; otherwise the current location with the same path and every other parameter, with `u=welcome` for SVOD and without `u` for TVOD |
| `Checkout.SuccessUrlsDifferOnlyInU` | src/containers/AccountModal/forms/Checkout.tsx:47-52 | the SVOD success URL is the TVOD one with `u=welcome` added |
| `Checkout.FirstWithIdFrom` | src/containers/AccountModal/forms/Checkout.tsx:190 | the first index at or after a position carrying the id, or none when no such index exists |
| `Checkout.SelectedMethod` | src/containers/AccountModal/forms/Checkout.tsx:190 | a method is found iff the methods are loaded, an id is selected and some method has it; the one found is the first one with that id |
| `Checkout.RenderPaymentMethod` | src/containers/AccountModal/forms/Checkout.tsx:189-217 | no widget without an order or offer; the no-payment widget iff there are an order and an offer and no payment details are needed; otherwise Stripe iff `card` with `stripe`, Adyen iff `card` with another provider, PayPal iff `paypal`, and nothing for any other method |
| `Checkout.NoPaymentRequiredIgnoresMethod` | src/containers/AccountModal/forms/Checkout.tsx:192-196 | without required payment details, the selected method does not matter |
| `Checkout.OfferTypeNeverBlocksCheckout` | src/containers/AccountModal/forms/Checkout.tsx:220 | `ShowsLoading` (the guard of line 220): the loading guard shows the overlay iff the offer, the order or the methods are missing; `!offerType` never fires |
| `Checkout.StaleOrderMarker` | src/containers/AccountModal/forms/Checkout.tsx:64 | the stale-order message of the coupon handlers contains no `}` |
| `Checkout.StaleOrderMarkerAsWritten` | src/containers/AccountModal/forms/Checkout.tsx:144 | the payment-method handler's marker contains `}` |
| `Checkout.ChangeHandlerMissesStaleOrder` | src/containers/AccountModal/forms/Checkout.tsx:144 | `ChangeHandlerSeesStaleOrder` (the payment-method handler's test, line 144): the payment-method handler's test never fires on a message without `}`, and so misses the stale-order message that the coupon handlers recognise |
| `Checkout.StaleOrderRecognised` | src/containers/AccountModal/forms/Checkout.tsx:64 | `IsStaleOrderError` (the coupon handlers' test, lines 64 and 88): the coupon handlers recognise the stale-order message of every order id, inside any longer message |
| `Checkout.CheckoutSession.constructor` | src/containers/AccountModal/forms/Checkout.tsx:24-28 | no payment error, not updating, coupon form closed, no coupon applied, no method selected |
| `Checkout.CheckoutSession.PaymentWidget` | src/containers/AccountModal/forms/Checkout.tsx:189-226 | a widget is rendered iff the offer, the order and the methods are all present, and it is the one chosen for the store's order, a present offer and the first method with the selected id |
| `Checkout.CheckoutSession.ClearPurchasingOfferWhileUpdating` | src/containers/AccountModal/forms/Checkout.tsx:30-32 | while an order update runs, the store forgets the purchase of offers; nothing else changes |
| `Checkout.CheckoutSession.SubmitCouponCode` | src/containers/AccountModal/forms/Checkout.tsx:54-75 | the order is updated only with a non-empty code and an order; the coupon counts as applied iff that update resolves; a stale order leads to offer selection, replacing the entry, with no coupon error; any other `Error` sets `checkout.coupon_not_valid`; the update flag and the form's submitting flag end false |
| `Checkout.CheckoutSession.HandleCouponFormSubmit` | src/containers/AccountModal/forms/Checkout.tsx:77-99 | the same as the form submit, with the coupon error cleared first, so afterwards it is set exactly when the update was rejected with a non-stale `Error` |
| `Checkout.CheckoutSession.ChangePaymentMethod` | src/containers/AccountModal/forms/Checkout.tsx:133-150 | the new id is recorded and the payment error cleared; with an order and a non-zero id, that same order is updated with the new id and the current code; the coupon is left not applied; navigation without replace happens only for the doubled-brace marker; the update flag ends false |
| `Checkout.CheckoutSession.ChangeMethodThenSubmitCoupon` | src/containers/AccountModal/forms/Checkout.tsx:133-150 | after a payment-method change, a coupon submit (lines 54-75) updates the same order as the change did, with the newly selected method and the same code; the store is untouched |
| `Checkout.CheckoutSession.CreateNewOrder` | src/containers/AccountModal/forms/Checkout.tsx:101-122 | without an offer, a navigation to offer selection that replaces the entry; otherwise the methods are fetched, the first method's id is selected, and the order is created with that same id; a rejection leaves the update flag set |
| `Checkout.CheckoutSession.Teardown` | src/containers/AccountModal/forms/Checkout.tsx:125-127 | closing the checkout clears the store's order and nothing else |
| `Checkout.CheckoutSession.BackButtonClick` | src/containers/AccountModal/forms/Checkout.tsx:129-131 | back to offer selection as a new history entry; nothing else changes |
| `Checkout.CheckoutSession.SetCouponFormOpen` | src/containers/AccountModal/forms/Checkout.tsx:239-240 | the coupon form is opened or closed; nothing else changes |
| `Checkout.CheckoutSession.CouponInputChange` | src/containers/AccountModal/forms/Checkout.tsx:238 | the coupon code is replaced; nothing else changes |
| `Checkout.CheckoutSession.HandleNoPaymentRequiredSubmit` | src/containers/AccountModal/forms/Checkout.tsx:152-166 | pay without details, then reload the subscription, then go to the success URL, replacing the entry; the first rejected call is the only one whose `Error` becomes the payment error; the update flag ends false |
| `MediaSeries.LegacySeriesPlaylistId` | src/pages/ScreenRouting/mediaScreens/MediaSeries/MediaSeries.tsx:283 | the legacy playlist id is the custom parameter, or `''` without one |
| `MediaSeries.RouteMediaSeries` | src/pages/ScreenRouting/mediaScreens/MediaSeries/MediaSeries.tsx:287-300 | loading iff the series or media is loading; then error iff a playlist error or no playlist; then the legacy redirect iff there is no series; content otherwise; the redirect carries the legacy id, `play` iff the query `play` is `1`, and the `r` query value |
| `MediaSeries.RouteIgnoresParameters` | src/pages/ScreenRouting/mediaScreens/MediaSeries/MediaSeries.tsx:287-300 | the query parameters and the custom parameter never change which screen is chosen |
| `MediaSeries.SelectedItem` | src/pages/ScreenRouting/mediaScreens/MediaSeries/MediaSeries.tsx:60 | the episode when one is loaded, the series media otherwise |
| `MediaSeries.EpisodeInProgress` | src/pages/ScreenRouting/mediaScreens/MediaSeries/MediaSeries.tsx:87-89 | none iff no history entry is of this series with Min < progress < Max; otherwise the first such entry |
| `MediaSeries.EpisodeInProgressSkipsOthers` | src/pages/ScreenRouting/mediaScreens/MediaSeries/MediaSeries.tsx:87-89 | entries that are not in progress, placed in front of the history, never change the result |
| `MediaSeries.FeedIdOrEmpty` | src/pages/ScreenRouting/mediaScreens/MediaSeries/MediaSeries.tsx:99 | `r` is the query's `r`, or `''` without one |
| `MediaSeries.Written` | src/pages/ScreenRouting/mediaScreens/MediaSeries/MediaSeries.tsx:110 | the written parameters are exactly the listed keys with defined values |
| `MediaSeries.WrittenDropsOtherParams` | src/pages/ScreenRouting/mediaScreens/MediaSeries/MediaSeries.tsx:99 | the spread of the current parameters carries none of them into the new ones |
| `MediaSeries.SeriesView.constructor` | src/pages/ScreenRouting/mediaScreens/MediaSeries/MediaSeries.tsx:70-77 | `EpisodesEnabled` (the `enabled` condition of the episodes query, line 77): the season filter starts undefined, so no episodes are fetched yet |
| `MediaSeries.SeriesView.SetSearchParams` | src/pages/ScreenRouting/mediaScreens/MediaSeries/MediaSeries.tsx:46 | the query becomes the written parameters, and the write is logged |
| `MediaSeries.SeriesView.GoBack` | src/pages/ScreenRouting/mediaScreens/MediaSeries/MediaSeries.tsx:98-100 | selects the loaded episode, keeps `r` (or `''`), and drops `play`, so the player stops |
| `MediaSeries.SeriesView.CardClick` | src/pages/ScreenRouting/mediaScreens/MediaSeries/MediaSeries.tsx:102-107 | selects the clicked episode; `r` and `play` are dropped |
| `MediaSeries.SeriesView.Complete` | src/pages/ScreenRouting/mediaScreens/MediaSeries/MediaSeries.tsx:109-111 | `e` becomes the next item, or the current episode when there is none; `play` is `1` iff there is a next item; `r` is kept, as `''` when absent |
| `MediaSeries.SeriesView.AutoSelectEpisodeInProgress` | src/pages/ScreenRouting/mediaScreens/MediaSeries/MediaSeries.tsx:118-122 | `HasEpisodeParam` (the `e` test of lines 119 and 129): writes `e` (with `r`, replacing the entry) only when an episode is in progress and no `e` is present; otherwise nothing changes |
| `MediaSeries.SeriesView.StartWatching` | src/pages/ScreenRouting/mediaScreens/MediaSeries/MediaSeries.tsx:166 | plays the loaded episode, or else the first episode, keeping `r` and replacing the entry; with neither, nothing is written |
| `MediaSeries.SeriesView.SyncSeasonFilter` | src/pages/ScreenRouting/mediaScreens/MediaSeries/MediaSeries.tsx:124-139 | with `HasEpisodeParam` for the `e` test and `EpisodesEnabled` for the episodes query: nothing changes while anything loads; without an episode, the first filter or `''`, so episodes can be fetched; with one, the episode's season only while the filter is undefined; a defined filter never becomes undefined |
| `MediaSeries.SeriesView.SetSeasonFilter` | src/pages/ScreenRouting/mediaScreens/MediaSeries/MediaSeries.tsx:232 | the viewer's choice becomes the season filter |
| `MediaSeries.SeasonFilterSettlesWithEpisode` | src/pages/ScreenRouting/mediaScreens/MediaSeries/MediaSeries.tsx:136-138 | with an episode selected, once the season filter is defined, later runs of the effect never change it |

## Left out

- The file read, write and rename around the compaction (scripts/compressIni.js:4-5 and 20-24).
  The model is the text transform only.
- The Vite plugin objects (React, ESLint, Stylelint, PWA, HTML minification, static copy) and the
  `define`, `server`, `build`, `css` and `resolve` settings. They configure outside tools and hold no
  decision logic. Only the `emitError` flag and `manualChunks` are modelled.
- `process.env`. Setting `NODE_ENV` is modelled as a flag of the settings.
- `fs.existsSync`, `fs.copyFileSync` and `fs.promises.access`. They become a map or a set of
  existing paths. The awaiting in the resolver is not modelled.
- `BuildConfig.Dirname`: `path.dirname` is modelled as the cut before the last `/`. `path.join`
  is modelled as concatenation with `/`. Node's normalisation of `.`, `..` and repeated or trailing
  separators is not modelled. `srcPath` is a parameter, because `__dirname` is not known here.
- `handlePayPalSubmit` (src/containers/AccountModal/forms/Checkout.tsx:168-187). It builds URLs
  from `window.location` and redirects the browser, and neither is modelled.
- The checkout store's own updates made by the checkout controller. For example, `createOrder` and
  `updateOrder` write the new order into the store. The controller is not part of this model, so its
  calls appear only in the call log.
- `isSVODOffer` is a field of the offer. `addQueryParam` and `removeQueryParam` are modelled as
  updates of a query map, because the location utilities are not part of this model.
- Translations (`t(...)`). The coupon error is its message key.
- The internals of `useForm`, such as validation and setting `submitting` at the start, and those
  of the Stripe, Adyen and PayPal widgets.
- `parseInt` returning `NaN`. The parsed id is an integer parameter. `NaN` is falsy, so it would
  take the "no update" path.
- `Checkout.CheckoutSession.ChangePaymentMethod`: the `catch` of lines 143-146 reads
  `error.message` on every rejection, so a rejection that is not an `Error` makes the `catch`
  itself throw. The rethrow and the unhandled rejection that follows are not modelled. The state
  is the same as modelled: no navigation, and `finally` resets the update flag.
- `IniCompaction.StripComment`: the corrected cut is meant for LF and CRLF files. On a file whose
  lines end only in `\r`, it removes text that the program keeps. For example, it cuts
  `a=1;c\rb=2\r` to `a=1\r`, where the program gives `a=1\rb=2\r`.
- Interleaving of overlapping handlers and `finally` callbacks. Each handler runs to its end. The
  `updatingOrder` value seen while a call is awaited is not recorded.
- The one-second delay of `reloadActiveSubscription`.
- Rendering: JSX, Helmet meta tags, the canonical URL, the trailer button and modal, the scroll
  effect, and the content's own loading and error guards (src/pages/ScreenRouting/mediaScreens/MediaSeries/MediaSeries.tsx:142-144).
- The data hooks for the series, media, episodes, metadata and next episode. Their results
  (loading flags, filters, season number, next item, watch history) are parameters.
- The values of `VideoProgressMinMax`. They are the parameters `min` and `max`, because the
  configuration file is not part of this model.
- `MediaSeries.Written`: an `undefined` value given to `setSearchParams` is modelled as an absent
  key. The router's own serialisation of such a value is not modelled.
- src/components/Player/Player.capacitor.tsx and test-e2e/tests/static_page_test.ts. One is a thin
  wrapper over a native player SDK and the other is a browser style test. Neither holds logic to
  model.

## Findings

| source | as written | input that shows it | evidently intended | confidence | as-written member | corrected member |
|---|---|---|---|---|---|---|
| vite.config.ts:103 | `emitError` compares `mode` with `'production'`, but line 64 has already renamed `production` to `prod` | mode `production`: lint errors do not fail the build | production builds fail on lint errors, like `demo` and `preview` | medium, not executed | `BuildConfig.ProductionNeverEmitsLintErrors` | `BuildConfig.ProductionEmitsLintErrors` |
| src/containers/AccountModal/forms/Checkout.tsx:144 | the stale-order test looks for `Order with id ${order.id}} not found`, with a doubled brace | order 7 and message `Order with id 7 not found`: no navigation, where the coupon handlers navigate | the same marker as lines 64 and 88 | high, not executed | `Checkout.ChangeHandlerMissesStaleOrder` | `Checkout.StaleOrderRecognised` |
| scripts/compressIni.js:12 | `/;.*/` removes the comment only up to the next `\r`, U+2028 or U+2029, because `.` does not match line terminators | the text `a;\r;` compacts to `a\r;`, which still holds `;`, and a second pass changes it again | on LF and CRLF files (the only ones for which the intent is clear), everything from the first `;` to the end of the line is removed, keeping the `\r` that ends a CRLF line; there both cuts agree (`IniCompaction.AsWrittenAgreesOnCrlfText`) | low, not executed | `IniCompaction.AsWrittenKeepsSemicolonAfterCarriageReturn` | `IniCompaction.CleanIniIdempotent` |

`BuildConfig.Configure` keeps the lint rule as written at line 103; the corrected rule is
`BuildConfig.EmitLintErrors`. The compaction is parametrised by its comment cut: every property
except the absence of `;` and idempotence is proved for the cut as written and for the corrected
one. `IniCompaction.AsWrittenAgreesOnCrlfText` shows that the two agree on LF and CRLF files, and
`IniCompaction.AsWrittenIdempotentOnCrlfText` shows that the program's compaction is idempotent there. The coupon handlers use the correct
stale-order test. `Checkout.CheckoutSession.ChangePaymentMethod` keeps the doubled brace of
line 144, because that is what the handler does.
