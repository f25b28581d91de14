# SKY-VERSE core in Dafny

SKY-VERSE is a Next.js application. A user uploads a night-sky photograph and gets back a simulated
star analysis: star, cluster and anomaly counts, a discovery score, a generated star field and two
sample constellations. The field is drawn on a canvas with an optional density heat map and
constellation lines. Charts summarise it, observations are kept in browser storage, and a small
account registry lives there too.

This project models the deterministic core of that application and proves its contracts:

- **The star-field layout engine** (`components/star-field-canvas.tsx`), without its drawing calls:
  - the RA/Dec → pixel projection with its 50 px padding and zero-spread fallbacks;
  - the first-come collision pass that shrinks crowded stars;
  - the density heat grid;
  - constellation edges and label centroids under JavaScript array-index semantics.
  Modules: `StarProjection`, `StarPlacement`, `DensityGrid`, `ConstellationLayout`, `StarFieldCanvas`.
- **The analysis endpoint** (`app/api/analyze-image/route.ts`): every count is derived from the file
  size modulo 1000, and the field has exactly `starCount` stars. Module: `AnalyzeImage`.
- **The chart data preparation** (`components/analysis-charts.tsx`): the ten-bucket brightness
  histogram, the cluster series and the anomaly sample of at most ten points. Module: `AnalysisCharts`.
- **The observation archive** (`lib/storage.ts`): upsert-to-front and delete-by-id on one stored list.
  Module: `Storage`.
- **The account registry** (`lib/auth.ts`): input checks including the email pattern, a table keyed by
  the lower-cased email, and the current-user slot. Module: `Auth`.
- **Three small components**:
  - the active-link test and menu flags of `components/navigation.tsx` (module `Navigation`);
  - the zoom control of `components/pdf-preview.tsx` (module `PdfPreview`);
  - the file check and drag flag of `components/image-upload-section.tsx` (module `ImageUpload`).

Shared entities from `types/index.ts` live in module `Types`. String helpers live in `Text`.

Code that changes state step by step is modelled as such:
- The placement, heat-grid, edge and label-centroid loops are methods with loop invariants. Each is
  proved equal to a recursive specification function, and the properties are proved about that
  function.
- The star-generation loop is a method too. It is proved equal, star by star, to the non-recursive
  function `GeneratedStar`.
- The storage slots, the zoom level, the menu flags and the upload panel's fields are classes whose
  methods state their whole new state.

Randomness is not modelled. The label offsets, the constellation-name jitter and the `Math.random()`
draws of the star generator are parameters (`nat -> Offset`, `nat -> real`). The login time and the
user id are parameters too. The pixel distance of the heat grid is an abstract non-negative function,
and one lemma ties its radius test to squared distances.

The application accepts any image file of the right type and size. No part of the code looks at
pixel brightness or decides whether a photograph shows a night sky. The code has no such gate, so
none is modelled. The counts and the summary depend only on the file size; the star field and the
timestamp come from `Math.random()` and the clock.

## Model

| member | source | states |
|---|---|---|
| Types.StarsOf | components/star-field-canvas.tsx:32 | A supplied star list wins even when empty; otherwise the analysis' list; otherwise [] |
| Types.ConstellationsOf | components/star-field-canvas.tsx:33 | The same fallback chain for constellations |
| StarProjection.BoundsOf | components/star-field-canvas.tsx:62-67 | The bounds are ordered, enclose every star, and each bound is attained by some star |
| StarProjection.Span | components/star-field-canvas.tsx:69-70 | A spread is always positive: the real spread when non-zero, else the fallback (360 for RA, 180 for Dec) |
| StarProjection.MapToCanvas | components/star-field-canvas.tsx:73-77 | `mapToCanvas` sends the minimum RA and Dec to the 50 px padding and, with non-zero spreads, the maximum RA and Dec to the far padding |
| StarProjection.MinCornerAtPadding | components/star-field-canvas.tsx:71-77 | The minimum corner (raMin, decMin) maps to (50, 50) |
| StarProjection.MaxCornerAtFarPadding | components/star-field-canvas.tsx:71-77 | With non-zero spreads, (raMax, decMax) maps to (width − 50, height − 50) |
| StarProjection.ProjectionMonotone | components/star-field-canvas.tsx:73-77 | On a canvas of at least 100 × 100, x is non-decreasing in ra and y in dec |
| StarProjection.ProjectionInFrame | components/star-field-canvas.tsx:62-77 | On a canvas of at least 100 × 100, every star projects into [50, width − 50] × [50, height − 50] |
| StarProjection.BelowRadiusIffSquared | components/star-field-canvas.tsx:96-97 | For a non-negative distance d with d² = sq, d < r iff sq < r² |
| StarPlacement.BaseSize | components/star-field-canvas.tsx:85-86 | The base size exceeds the 0.5 drop threshold iff brightness > −1, and lies in [0.8, 3.8] for brightness in [0, 10] |
| StarPlacement.PlaceStars | components/star-field-canvas.tsx:80-110 | The placement loop with its inner collision scan produces exactly the markers of the placement function |
| StarPlacement.PlacementAtMostStars | components/star-field-canvas.tsx:83-110 | The pass never produces more markers than stars |
| StarPlacement.FirstStarFullSize | components/star-field-canvas.tsx:94-105 | The first star always gets its full size and capped brightness at its projected point |
| StarPlacement.PlacementPrefix | components/star-field-canvas.tsx:83-110 | The markers of a prefix of the stars are a prefix of the markers: the pass keeps input order |
| StarPlacement.PlacementLastStep | components/star-field-canvas.tsx:83-110 | Whatever happened to the earlier stars, a star brighter than −1 keeps every earlier marker and adds exactly one, at its projected point with its label offset: full size and brightness iff no earlier marker is within 12 px, otherwise size ×0.6 and brightness ×0.7 |
| StarPlacement.PlacementOnePerStar | components/star-field-canvas.tsx:83-110 | With no brightness ≤ −1: one marker per star, at its projected point with its own label offset; full size and brightness iff no earlier marker is within 12 px, otherwise size ×0.6 and brightness ×0.7 |
| StarFieldCanvas.MarkersInFrame | components/star-field-canvas.tsx:80-110 | On a canvas of at least 100 × 100, with bounds that enclose every star, every marker lies inside the padded frame |
| DensityGrid.Weight | components/star-field-canvas.tsx:124 | Each weight 1/(1 + d/15) is in (0, 1], and equals 1 at distance 0 |
| DensityGrid.Contribution | components/star-field-canvas.tsx:122-125 | A star contributes a value in [0, 1], positive iff it is within 62.5 px |
| DensityGrid.Density | components/star-field-canvas.tsx:119-126 | The raw density at a corner is between 0 and the number of stars |
| DensityGrid.Normalized | components/star-field-canvas.tsx:128-129 | min(density/8, 1) is in [0, 1], and exceeds 0.05 iff density > 0.4 |
| DensityGrid.HeatGrid | components/star-field-canvas.tsx:113-137 | The nested loops produce one column per multiple of 25 below the width and one row per multiple of 25 below the height; each cell holds the density at its corner and is filled iff normalised > 0.05 |
| DensityGrid.ColumnCells | components/star-field-canvas.tsx:118-136 | The inner `gy` loop gives one cell per multiple of 25 below the height, each the cell at that corner |
| DensityGrid.CornerDensity | components/star-field-canvas.tsx:119-126 | The accumulation loop equals the density function |
| DensityGrid.AddingStarAddsWeight | components/star-field-canvas.tsx:120-126 | Appending a star raises a corner by exactly its weight when within the radius, and leaves it unchanged otherwise; a cell never decreases |
| DensityGrid.DensityAppend | components/star-field-canvas.tsx:120-126 | The density of two lists joined is the sum of their densities |
| DensityGrid.DensityRemove | components/star-field-canvas.tsx:120-126 | Taking one star out lowers the density by exactly that star's contribution |
| DensityGrid.DensityPermutationInvariant | components/star-field-canvas.tsx:120-126 | Two lists holding the same stars, each as often, give the same density at every corner: the order of the list does not matter |
| DensityGrid.EuclideanWithinRadius | components/star-field-canvas.tsx:122-123 | With the Euclidean distance, the radius test is squared distance < 62.5² |
| ConstellationLayout.ConstellationEdges | components/star-field-canvas.tsx:146-164 | The edge loop of one constellation equals the edge function |
| ConstellationLayout.LayoutEdges | components/star-field-canvas.tsx:146-164 | The loop over all constellations gives one edge list per constellation, each the edge function of its indices |
| ConstellationLayout.EdgeCountBound | components/star-field-canvas.tsx:147-150 | Fewer than two indices give no edges; otherwise at most len − 1 edges |
| ConstellationLayout.EdgesJoinResolvedNeighbours | components/star-field-canvas.tsx:150-157 | Every edge joins the projections of two consecutive indices that both resolve |
| ConstellationLayout.EdgesComplete | components/star-field-canvas.tsx:150-157 | Every consecutive pair whose two indices resolve draws its edge, whatever the other indices are |
| ConstellationLayout.FullChain | components/star-field-canvas.tsx:150-157 | When all indices resolve, there are exactly len − 1 edges, edge k joining members k and k + 1 |
| ConstellationLayout.ConstellationLabel | components/star-field-canvas.tsx:207-225 | The label loop yields no label iff no member resolves; otherwise the label carries the constellation's name and the mean projected position of the resolving members, moved by the jitter |
| ConstellationLayout.NoLabelIffNoMemberResolves | components/star-field-canvas.tsx:208-218 | There is nothing to average exactly when no index resolves |
| ConstellationLayout.CentroidInFrame | components/star-field-canvas.tsx:218-220 | The mean of points inside the padded frame is inside it |
| ConstellationLayout.MemberPointsAreStars | components/star-field-canvas.tsx:210-212 | Every averaged point is the projection of a listed star |
| ConstellationLayout.DanglingIndexExample | components/star-field-canvas.tsx:146-164 | For [0, 999] over five stars the dangling index drops the only edge, but the label still sits at star 0 |
| StarFieldCanvas.RenderPass | components/star-field-canvas.tsx:22-33 | One pass: nothing for an empty star list; otherwise the bounds, the placement, the heat grid (only when enabled), and the edges and labels of every constellation (only when enabled) |
| StarFieldCanvas.LayoutLabels | components/star-field-canvas.tsx:207-225 | The loop over all constellations equals the labels function |
| StarFieldCanvas.LabelsAreCentroids | components/star-field-canvas.tsx:207-225 | Every label is the centroid of some constellation's resolving members, with that constellation's name and jitter |
| StarFieldCanvas.LabelCentroidsInFrame | components/star-field-canvas.tsx:207-220 | On a canvas of at least 100 × 100, every label centroid lies inside the padded frame, whatever indices the constellations hold |
| AnalyzeImage.Seed | app/api/analyze-image/route.ts:14 | The seed is in [0, 999] |
| AnalyzeImage.StarCountFor | app/api/analyze-image/route.ts:17 | starCount is in [120, 169] |
| AnalyzeImage.ClusterCountFor | app/api/analyze-image/route.ts:18 | clusterCount is in [3, 7] |
| AnalyzeImage.AnomalyCountFor | app/api/analyze-image/route.ts:19 | anomalyCount is in [0, 2] |
| AnalyzeImage.DiscoveryScoreFor | app/api/analyze-image/route.ts:20 | discoveryScore is in [65, 94] |
| AnalyzeImage.GenerateStarField | app/api/analyze-image/route.ts:37-47 | Exactly `count` stars, star i built from its three draws |
| AnalyzeImage.GeneratedStarInRange | app/api/analyze-image/route.ts:40-44 | With draws in [0, 1), ra is in [0, 360), dec in [−90, 90) and brightness in [0, 10) |
| AnalyzeImage.Post | app/api/analyze-image/route.ts:3-35 | 500 "Analysis failed" for an unreadable body; 400 "No image provided" without an image; otherwise 200 with the counts, summary, timestamp, a field of starCount stars and the two sample constellations |
| AnalyzeImage.SummaryReportsStarCount | app/api/analyze-image/route.ts:21 | The number written after "Stellar analysis extracted " in the summary reads back as the star count |
| Text.DecimalRoundTrip | app/api/analyze-image/route.ts:21 | Reading back the decimal rendering of a number gives the number |
| Text.LeadingDigitsStop | app/api/analyze-image/route.ts:21 | The digits at the front of a number followed by a space are exactly that number's digits |
| AnalyzeImage.CongruentSizesSameCounts | app/api/analyze-image/route.ts:13-20 | Sizes congruent modulo 1000 give identical counts |
| AnalyzeImage.SampleIndicesResolve | app/api/analyze-image/route.ts:17-27 | Every constellation index (0–4, 10–15) is below starCount |
| AnalysisCharts.Coalesce | components/analysis-charts.tsx:37-39 | An explicit prop wins, even 0; then the analysis' value; then 0 |
| AnalysisCharts.ChartsOf | components/analysis-charts.tsx:36-62 | Ten brightness buckets; one cluster entry per cluster and none for a count ≤ 0; an anomaly sample of at most ten points, empty iff there are no stars; the coalesced anomaly count and score |
| AnalysisCharts.ZeroPropWins | components/analysis-charts.tsx:37-48 | An explicit cluster count of 0 gives an empty cluster series whatever the analysis holds |
| AnalysisCharts.BrightnessData | components/analysis-charts.tsx:42-45 | Exactly 10 buckets; bucket i is labelled "i-(i+1)" and counts the stars with i ≤ brightness < i + 1 |
| AnalysisCharts.CountSplit | components/analysis-charts.tsx:44 | Counting over [lo, hi) is counting over [lo, mid) plus over [mid, hi) |
| AnalysisCharts.HistogramTotal | components/analysis-charts.tsx:42-45 | The bucket counts add up to the number of stars with brightness in [0, 10), which is at most the number of stars |
| AnalysisCharts.BucketsDisjoint | components/analysis-charts.tsx:44 | A star falls in at most one bucket |
| AnalysisCharts.OutOfRangeStarUncounted | components/analysis-charts.tsx:44 | A star with brightness < 0 or ≥ 10 is in no bucket: adding it leaves the histogram unchanged |
| AnalysisCharts.ClusterLabels | components/analysis-charts.tsx:48-49 | The series has clusterCount entries (none for a count ≤ 0), entry i labelled "Cluster i+1" |
| AnalysisCharts.Round | components/analysis-charts.tsx:59-61 | Math.round: the result is within half of the argument, halves rounding up |
| AnalysisCharts.AnomalyData | components/analysis-charts.tsx:55-62 | Point k has id k, ra = round(ra) and brightness = round(10 · brightness) of the k-th sampled star |
| AnalysisCharts.SampledCount | components/analysis-charts.tsx:56 | With stride s > 0, the kept indices below n number ceil(n / s) |
| AnalysisCharts.SampledComplete | components/analysis-charts.tsx:56 | Every index below n that the stride keeps is in the sample |
| AnalysisCharts.AnomalySampleBounds | components/analysis-charts.tsx:55-56 | The sample is empty iff there are no stars, starts at star 0 otherwise, and has at most 10 points |
| Storage.Read | lib/storage.ts:17-24 | An absent or unparsable slot reads as the empty list |
| Storage.ObservationStore.Observations | lib/storage.ts:17-24 | `getObservations` gives the stored list, or [] when the slot is absent or unparsable |
| Storage.Without | lib/storage.ts:7-36 | Filtering by id keeps exactly the entries with another id |
| Storage.Find | lib/storage.ts:27-30 | The lookup returns an entry with that id from the list, and null iff there is none |
| Storage.FindIsFirst | lib/storage.ts:29 | The entry found is the first with that id |
| Storage.ObservationStore.SaveObservation | lib/storage.ts:7-15 | The slot holds the saved list, or is unchanged when writing fails |
| Storage.ObservationStore.DeleteObservation | lib/storage.ts:32-40 | The slot holds the list without the id, or is unchanged when writing fails |
| Storage.ObservationStore.GetObservation | lib/storage.ts:27-30 | Returns the lookup on the current list |
| Storage.SaveShape | lib/storage.ts:10 | After a save the head is the observation, exactly one entry has its id, and the other entries follow in their old order |
| Storage.SaveIdempotent | lib/storage.ts:10 | Saving the same observation twice gives the list of saving it once |
| Storage.FindAfterSave | lib/storage.ts:7-30 | After a save its id finds the observation, and other ids find what they found before |
| Storage.WithoutIsSubsequence | lib/storage.ts:35 | Deleting keeps the remaining entries in order |
| Storage.WithoutRemovesAll | lib/storage.ts:35 | After deleting, no entry has that id |
| Storage.WithoutAbsentId | lib/storage.ts:35 | Deleting an id that no entry has changes nothing |
| Storage.WithoutIdempotent | lib/storage.ts:35 | Deleting twice is deleting once |
| Storage.FindAfterDelete | lib/storage.ts:27-36 | After deleting an id, the lookup for it returns null |
| Auth.IndexOf | lib/auth.ts:26 | Returns the first position of the character, or none when it is absent |
| Auth.ValidEmailMatchesPattern | lib/auth.ts:26 | The scanning check accepts exactly the language of the email pattern |
| Auth.ValidEmailShape | lib/auth.ts:26 | An accepted email has no whitespace and exactly one '@', with a non-empty part before it |
| Auth.ValidEmail | lib/auth.ts:26 | An accepted email is at least five characters long and starts and ends with a character other than whitespace and '@' |
| Auth.TableOf | lib/auth.ts:34-50 | A missing table parses as empty, and a corrupt one throws |
| Auth.RegisterResult | lib/auth.ts:21-43 | Every failure leaves the table unchanged; a success needs a valid email, a password of at least 6 characters and a free key, and stores the account under the lower-cased email; the parse throws iff the inputs pass and the table is corrupt |
| Auth.LoginResult | lib/auth.ts:45-65 | A success needs a parsed table whose lower-cased key holds the same password, and returns that account's stored email; the parse throws iff both inputs are non-empty and the table is corrupt |
| Auth.RegisterErrorOrder | lib/auth.ts:21-37 | Missing input is reported first, then the format, then a password under 6 characters; every failure leaves the table unchanged |
| Auth.RegisterTable | lib/auth.ts:34-42 | A taken lower-cased key is refused; a free one gets the email as typed and the password, and all other keys keep their accounts; a missing table behaves as an empty one |
| Auth.LoginSucceedsIff | lib/auth.ts:45-64 | Login succeeds iff both inputs are non-empty and the lower-cased email keys an account with the same password; the user carries the stored email; a missing table behaves as an empty one |
| Auth.RegisterThenLogin | lib/auth.ts:21-64 | After a successful register, login with any case variant of the email succeeds |
| Auth.Seeded | lib/auth.ts:8-19 | Seeding writes the "demo" entry only when no table exists |
| Auth.SeedIdempotent | lib/auth.ts:8-19 | Seeding twice is seeding once, and an existing table is never overwritten |
| Auth.DemoKeyedByName | lib/auth.ts:8-51 | The seeded entry is keyed "demo": login with "demo@skyverse.com" is refused, login with "demo" succeeds |
| Auth.SeededByEmail | lib/auth.ts:8-19 | The corrected seed: the demo account is written under its lower-cased email, and only when no table exists |
| Auth.AdvertisedDemoLogin | app/login/page.tsx:86-92 | With the corrected seed, the advertised demo email (in any letter case) and password log in as the demo account |
| Auth.CurrentUserOf | lib/auth.ts:71-82 | A user is present, so `isAuthenticated` holds, iff the slot holds a parseable user |
| Auth.AuthStore.Register | lib/auth.ts:21-43 | Outcome and table as the register function says; the current user is untouched |
| Auth.AuthStore.Login | lib/auth.ts:45-65 | The current-user slot is set exactly on success; the table is untouched |
| Auth.AuthStore.Logout | lib/auth.ts:67-69 | Afterwards there is no current user, so `isAuthenticated` is false |
| Auth.AuthStore.CurrentUser | lib/auth.ts:71-78 | `getCurrentUser` returns a user iff the slot holds a parseable user |
| Auth.AuthStore.IsAuthenticated | lib/auth.ts:80-82 | `isAuthenticated` holds iff the slot holds a parseable user |
| Auth.AuthStore.InitializeSampleUsers | lib/auth.ts:8-19 | The table becomes the seeded table |
| Navigation.ActiveIsSegmentPrefix | components/navigation.tsx:18 | For a link other than "/": active iff the path starts with the link and ends there or continues with '/' |
| Navigation.IsActive | components/navigation.tsx:14-19 | Every link is active on its own path, and an active link other than "/" is a prefix of the path |
| Navigation.RootActive | components/navigation.tsx:15-17 | "/" is active exactly on "/" and "/analyze" |
| Navigation.SelfActive | components/navigation.tsx:18 | Every link is active on its own path |
| Navigation.ReportsExamples | components/navigation.tsx:18 | "/reports" is active on "/reports/1" but not on "/reportsX" or "/report" |
| Navigation.NavigationBar.ToggleMobile | components/navigation.tsx:75 | The hamburger flips mobileOpen and nothing else |
| Navigation.NavigationBar.OpenLogin | components/navigation.tsx:66-87 | A Login button opens the modal and nothing else |
| Navigation.NavigationBar.CloseLogin | components/navigation.tsx:95 | The close button closes the modal and nothing else |
| Navigation.ToggleTwice | components/navigation.tsx:75 | Pressing the hamburger twice restores the menu |
| PdfPreview.ZoomedIn | components/pdf-preview.tsx:29 | Zoom-in never exceeds 200, raises any level below 200, and keeps the reachable levels |
| PdfPreview.ZoomedOut | components/pdf-preview.tsx:21 | Zoom-out never goes below 50, lowers any level above 50, and keeps the reachable levels |
| PdfPreview.ClampedAtLimits | components/pdf-preview.tsx:20-30 | Zoom-out at 50 and zoom-in at 200 do nothing |
| PdfPreview.ZoomRoundTrips | components/pdf-preview.tsx:20-30 | Below 200, in then out returns the level; above 50, out then in does |
| PdfPreview.ZoomControl.constructor | components/pdf-preview.tsx:13 | The zoom starts at 100, a reachable level |
| PdfPreview.ZoomControl.ZoomIn | components/pdf-preview.tsx:29 | The zoom-in handler keeps zoom in [50, 200] and a multiple of 10 |
| PdfPreview.ZoomControl.ZoomOut | components/pdf-preview.tsx:21 | The zoom-out handler keeps zoom in [50, 200] and a multiple of 10 |
| PdfPreview.Scale | components/pdf-preview.tsx:56 | At every reachable level the scale factor is in [0.5, 2] |
| ImageUpload.Rejection | components/image-upload-section.tsx:28-36 | A non-image type gives the type message whatever the size; an image over 10 MiB gives the size message; accepted iff an image of at most 10 MiB |
| ImageUpload.RejectionExamples | components/image-upload-section.tsx:28-36 | A PDF is refused for its type; an image of exactly 10 MiB passes, one byte more does not |
| ImageUpload.DragFlag | components/image-upload-section.tsx:49-53 | dragenter and dragover set the flag, dragleave clears it, other events leave it |
| ImageUpload.UploadSection.HandleFile | components/image-upload-section.tsx:25-44 | The error is cleared and set by the first failing check; an accepted file is passed on, a refused one is not |
| ImageUpload.UploadSection.HandleDrag | components/image-upload-section.tsx:46-54 | The flag follows the event type; nothing else changes |
| ImageUpload.UploadSection.HandleDrop | components/image-upload-section.tsx:56-65 | The flag always goes off; no file changes nothing else; otherwise the first file is handled |
| ImageUpload.UploadSection.HandleChange | components/image-upload-section.tsx:67-72 | No file does nothing; otherwise the first file is handled |
| Text.Lower | lib/auth.ts:35 | Case folding keeps the length, maps each ASCII capital to the lower-case letter 32 code points above it, and keeps every other character |
| Text.LowerIdempotent | lib/auth.ts:35-51 | Lower-casing twice is lower-casing once |

## Findings

| source | as written | input that shows it | evidently intended | confidence | as-written member | corrected member |
|---|---|---|---|---|---|---|
| lib/auth.ts:11-16 | The sample account is stored under the key "demo", while login looks accounts up by the lower-cased email | Login with "demo@skyverse.com" / "Demo123!", the credentials the login page advertises (app/login/page.tsx:86-92), on a freshly seeded table: refused with "Invalid email or password" | The demo account keyed by "demo@skyverse.com", so the advertised credentials log in | high, not executed | Auth.DemoKeyedByName | Auth.AdvertisedDemoLogin |

The rest of the model keeps the seed as written (`Auth.Seeded`, used by `Auth.AuthStore.InitializeSampleUsers`), so that the
store behaves as the application does. `Auth.SeededByEmail` is the corrected seed.

## Left out

- Canvas drawing is not modelled: gradients, arcs, rectangles, text, dash patterns, and the `toDataURL` export and download. It is output only.
- Label boxes sized by `measureText` are not modelled, because they depend on font metrics.
- Per-star labels (`analysis.starLabels`) are not modelled. They read a field that `AnalysisResult` does not declare.
- The jitter values are parameters. They come from `Math.random`, `Math.cos` and `Math.sin`: the star label offsets and the constellation-name jitter.
- The star generator's draws are the parameter `rand`. No particular values are modelled.
- Cluster sizes and densities and anomaly scores are `Math.random()` values. They are left out of the chart series.
- Floating point is modelled as exact real arithmetic. The heat grid's `Math.hypot` is an abstract non-negative distance.
- StarPlacement.Near: the collision test compares squared distances against 144. This matches `Math.hypot(dx, dy) < 12` for exact reals; floating-point rounding near the threshold is not modelled.
- JavaScript array indexing is modelled for integer indices only. An index resolves when 0 ≤ i < length. Non-integer indices such as `1.5` are allowed by `number[]` and read `undefined` in JavaScript; they are not modelled.
- `localStorage` and JSON (de)serialisation are abstract slots. Each slot is absent, unparsable, or holding a parsed value:
  - a stored value that parses to something other than the expected shape is not modelled;
  - the empty string counts as absent, as the truthiness test treats it.
- Storage.ObservationStore.SaveObservation: the quota error of `setItem` is the `writable` flag. The failure is logged to the console, and that log is not modelled.
- Storage.ObservationStore.DeleteObservation: the same `writable` flag stands for a failing `setItem`.
- Auth.RegisterResult and Auth.LoginResult: a corrupt users table makes `JSON.parse` throw out of `register` and `login`. This is the `Thrown` outcome; what the caller does with the exception is not modelled.
- Auth.AuthStore.Login: the random user id and the ISO login time are parameters.
- Auth.AuthStore.Register, Auth.AuthStore.Login and Auth.AuthStore.InitializeSampleUsers: a `setItem` that throws (for example on a full quota) is not modelled. Each write is taken to succeed.
- Text.Lower folds ASCII letters only. JavaScript's `toLowerCase` also folds non-ASCII letters.
- Auth.IsSpace lists the code points of the regular-expression class `\s`.
- The password-length check counts code points. JavaScript counts UTF-16 code units, which differ for characters outside the Basic Multilingual Plane.
- AnalyzeImage.Post: a form field `image` that is a string rather than a file is not modelled. The model reads `formData` as unreadable, without an image, or with a file of some size.
- The `GET` handler of the analysis route returns a constant status message. It is not modelled.
- `fileInputRef`, the `FileReader` data-URL preview and the `onAnalyze` button are not modelled. An accepted file is recorded in `uploads`, the files handed to `onUpload`.
- The `analyzeOpen` flag of the navigation bar is never changed by the component. It is kept as a field only.
- `app/api/generate-report/route.ts` is not part of this model. It forwards to `generatePdfReport` from `./pdf`, which is outside this model.
- The remaining UI files are not part of this model: pages, previews, cards and the animated background. They render and route.
- The constellation drawing treats a dangling index as the code does. A pair with an index that does not resolve draws no edge. The label is still placed at the mean of the members that do resolve (ConstellationLayout.DanglingIndexExample).
