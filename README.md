# Geo-space upload, authorization and map measurement model

A Dafny model of the three pieces of decision logic in the Geo-space web application:

- **Upload admission and dispatch** (`FileRoutes`): multer's `fileFilter` with its
  allow-list `geojson`, `kml`, `tiff`; the extension rule `split('.').pop().toLowerCase()`;
  the 10 MiB size limit; the stored file name `Date.now() + '-' + originalname`; the
  structural GeoJSON check of `processGeoJSON`; and the `/upload` handler, which answers
  400 without a file and otherwise calls the parser its `if / else if` chain selects. The
  route `PostUpload` composes `authenticate`, multer and the handler. The three parsers are
  function-valued parameters over the file's bytes.
- **Bearer-token authorization** (`Auth`): the token is the `Authorization` header with the
  first occurrence of `Bearer ` removed; no token or an empty one gives 401, a token that
  the `jwt.verify` oracle refuses gives 400, and an accepted token sets `req.user` and
  calls `next()` once (`Next`).
- **The map view** (`MapView`): the class `MapComponent` holds the component's four state
  slots (`roundedArea`, `lineLengthKm`, `lineLengthMiles`, `points`, with `None` for
  `null`) and the sources and layers of its map. `UpdateShape` is the draw-event handler as
  written, specified by the pure transition `Step`; `RegisterDatasets` runs the per-dataset
  `load` callbacks in registration order until the first one throws, specified by
  `SourcesFor`, `LayersFor` and `LoadError`. `CorrectedStep` is the handler with the two
  defects listed under Findings repaired.

Supporting modules: `Wrappers` (`Option`, `Result`), `Text` (JavaScript `split`, `join`,
`toLowerCase`, `indexOf`/`replace` with a string pattern, integer `toString`), `Json`
(parsed JSON values, truthiness, property reads that throw on `null`/`undefined`, the
`Dataset` record) and `Http` (`status(...).send(...)` replies).

Inputs the source obtains from its environment are parameters: the two `Date.now()`
readings of an upload, the file's bytes, the parsers, the `jwt.verify` oracle (secret
included), the features `draw.getAll()` returns, and the rounded Turf measurements of a
shape (`measure`).

The model follows the code as written. Two places where the code evidently does not do
what its authors meant are listed under Findings, each with the as-written behaviour and a
corrected one: the component starts `points` as an empty list (`useState([])`, Map.js:18)
and the panel reads `points.length` (Map.js:195), yet Polygon and LineString commits set it
to `null`; and the empty-collection branch calls `setLineLength`, which is not one of the
setters the component declares (`setLineLengthKm` and `setLineLengthMiles`, Map.js:16-17).
A file multer refuses never reaches the handler: multer passes its error to `next`, and
the model records that as `Rejected` with the reason.

## Model

| member | source | states |
|---|---|---|
| Text.Split | geo-backend/src/routes/fileRoutes.js:31 | `split('.')` always yields at least one piece and no piece contains the separator |
| Text.JoinSplit | geo-backend/src/routes/fileRoutes.js:31 | joining the pieces of a split with the separator gives the original string back |
| Text.SplitJoin | geo-backend/src/routes/fileRoutes.js:31 | splitting a join of separator-free pieces gives the pieces back |
| Text.LastPieceIsSuffix | geo-backend/src/routes/fileRoutes.js:31 | the popped piece is the suffix of the name after its last separator (the whole name when there is none) |
| Text.Lower | geo-backend/src/routes/fileRoutes.js:31 | `toLowerCase` keeps the length and maps each character by `LowerChar` |
| Text.LowerChar | geo-backend/src/routes/fileRoutes.js:31 | the lower-case mapping yields no upper-case ASCII letter and maps `.` and only `.` to `.` |
| Text.LowerLastPiece | geo-backend/src/routes/fileRoutes.js:31 | lower-casing before or after taking the last piece gives the same text |
| Text.IndexOf | geo-backend/src/middleware/auth.js:5 | the result is the first position where the pattern occurs, and `None` exactly when it occurs nowhere |
| Text.ReplaceFirst | geo-backend/src/middleware/auth.js:5 | only the first occurrence is replaced; without an occurrence the string is unchanged |
| Text.NumberToString | geo-backend/src/routes/fileRoutes.js:25 | `Date.now()` as text is a non-empty run of decimal digits without a leading zero |
| Text.ParseNumberToString | geo-backend/src/routes/fileRoutes.js:25 | reading back the decimal text of `n` gives `n` |
| Text.NumberToStringInjective | geo-backend/src/routes/fileRoutes.js:92 | distinct timestamps give distinct ids |
| Text.CanonicalIndex | geo-frontend/app/components/Map.js:113 | a property key is an array index only if it is the decimal form of that index |
| Json.Property | geo-frontend/app/components/Map.js:113 | property reads: an object's own member; a key with a non-digit finds something only in an object |
| Json.Member | geo-frontend/app/components/Map.js:113 | `v.key` throws a TypeError exactly on `undefined` and `null`, and reads the property otherwise |
| Auth.TokenOf | geo-backend/src/middleware/auth.js:5 | no header gives no token; a header without `Bearer ` passes unchanged; otherwise the first `Bearer ` is cut out |
| Auth.Authenticate | geo-backend/src/middleware/auth.js:4-18 | 401 with `Access denied. No token provided.` iff the token is missing or empty; 400 with `Invalid or expired token.` iff verification fails; otherwise `next()` with `req.user` the decoded payload |
| Auth.BearerHeaderYieldsToken | geo-backend/src/middleware/auth.js:5 | `Bearer <t>` yields exactly `t` |
| Auth.DoublePrefixStripsOnce | geo-backend/src/middleware/auth.js:5 | `Bearer Bearer x` becomes `Bearer x` |
| Auth.HeaderWithoutPrefixIsToken | geo-backend/src/middleware/auth.js:5 | a header without `Bearer ` is the token verbatim |
| Auth.BarePrefixIsDenied | geo-backend/src/middleware/auth.js:5-9 | the header `Bearer ` leaves an empty token and gets 401 without `next()` |
| Auth.BearerRequestOutcome | geo-backend/src/middleware/auth.js:5-17 | for `Bearer <t>` with non-empty `t`: `next()` with the payload iff the oracle accepts `t`, else 400 |
| FileRoutes.MaxFileSizeIsTenMebibytes | geo-backend/src/routes/fileRoutes.js:45 | the size limit `10 * 1024 * 1024` is 10485760 bytes |
| FileRoutes.Extension | geo-backend/src/routes/fileRoutes.js:31 | the extension contains no `.` and no upper-case ASCII letter |
| FileRoutes.ExtensionIsTextAfterLastDot | geo-backend/src/routes/fileRoutes.js:31 | the extension is the lower-cased text after the last `.`, and the whole name lower-cased when there is no `.` |
| FileRoutes.ExtensionAfterLastDot | geo-backend/src/routes/fileRoutes.js:31 | `prefix.ext` has extension `ext` lower-cased, whatever `prefix` holds |
| FileRoutes.ExtensionIgnoresCase | geo-backend/src/routes/fileRoutes.js:31 | names equal up to letter case have the same extension |
| FileRoutes.FileFilter | geo-backend/src/routes/fileRoutes.js:30-39 | accepts iff the extension is `geojson`, `kml` or `tiff`; a rejection carries the invalid-type error and `false` |
| FileRoutes.FilterIgnoresCase | geo-backend/src/routes/fileRoutes.js:31-34 | changing the letter case of a name never changes the filter's decision |
| FileRoutes.UpperCaseExtensionAdmitted | geo-backend/src/routes/fileRoutes.js:31-35 | `ROADS.GEOJSON` is admitted |
| FileRoutes.LastDotDecides | geo-backend/src/routes/fileRoutes.js:31-38 | `archive.tar.kml` is admitted and `roads.kml.zip` is not |
| FileRoutes.JsonAndTifRejected | geo-backend/src/routes/fileRoutes.js:32-38 | `roads.json` and `scan.tif` are rejected |
| FileRoutes.DotlessNameIsItsOwnExtension | geo-backend/src/routes/fileRoutes.js:31-35 | a file named `KML` has extension `kml` and is admitted |
| FileRoutes.Dispatch | geo-backend/src/routes/fileRoutes.js:98-104 | each allowed extension selects its own parser and nothing else selects one |
| FileRoutes.FilterAgreesWithDispatch | geo-backend/src/routes/fileRoutes.js:95-104 | a name is admitted exactly when the handler's recomputed extension selects a parser |
| FileRoutes.StoredFilename | geo-backend/src/routes/fileRoutes.js:23-26 | the stored name is the timestamp's digits, `-`, then the unchanged original name as a suffix |
| FileRoutes.StoredFilenameInjective | geo-backend/src/routes/fileRoutes.js:25 | the stored name determines the timestamp and the original name |
| FileRoutes.IsFeatureCollection | geo-backend/src/routes/fileRoutes.js:54 | the check can hold only of an object, and none of its reads throws |
| FileRoutes.FeatureCollectionShape | geo-backend/src/routes/fileRoutes.js:54 | the check holds iff the value is an object whose `type` is `FeatureCollection` and whose `features` is an array |
| FileRoutes.ProcessGeoJson | geo-backend/src/routes/fileRoutes.js:49-61 | the parsed value is returned whether or not the check holds; the check only picks the log line |
| FileRoutes.ValidityDoesNotChangeResult | geo-backend/src/routes/fileRoutes.js:54-60 | a valid and an invalid document are both returned unchanged, with different log lines |
| FileRoutes.RunParser | geo-backend/src/routes/fileRoutes.js:49-83 | a GeoJSON file fails only when its text does not parse and yields the parsed value unchanged; KML and TIFF yield their parser's value or exception |
| FileRoutes.HandleUpload | geo-backend/src/routes/fileRoutes.js:86-116 | 400 `No file uploaded.` and no parser without a file; otherwise the parser `Dispatch` selects runs, and its value is the dataset's data (200) or its exception gives 500 |
| FileRoutes.Admitted | geo-backend/src/routes/fileRoutes.js:28-46 | an admitted file has an extension that selects a parser and at most 10485760 bytes |
| FileRoutes.PostUpload | geo-backend/src/routes/fileRoutes.js:86-116 | auth failures answer before multer; a rejected name or an oversized file stops in multer; every admitted file is stored under its timestamped name, reaches exactly one parser, and gets 200 with the dataset `{ id: Date.now().toString(), data }` of that parser's value, or 500 when it throws; a parser runs only for an admitted file |
| MapView.Step | geo-frontend/app/components/Map.js:61-100 | as written, no event raises the alert |
| MapView.OnlyFirstFeatureMatters | geo-frontend/app/components/Map.js:62-65 | only `features[0]` is inspected |
| MapView.PolygonCommit | geo-frontend/app/components/Map.js:67-74 | a Polygon sets the area, clears both line slots and sets `points` to null |
| MapView.LineStringCommit | geo-frontend/app/components/Map.js:75-83 | a LineString sets km and miles, clears the area and sets `points` to null |
| MapView.PointCommit | geo-frontend/app/components/Map.js:85-92 | a Point appends exactly one `{id, coordinates}` at the end of `points`, keeps the earlier ones and clears the other slots; with `points` null the append throws |
| MapView.OtherGeometryLeavesSlots | geo-frontend/app/components/Map.js:67-94 | any other geometry type leaves all four slots unchanged but is still reported |
| MapView.NonEmptyCommitReportsFirst | geo-frontend/app/components/Map.js:94 | a non-empty collection calls `onShapeDrawn` once with `features[0]` and raises no alert |
| MapView.EmptyCommitKeepsLineSlots | geo-frontend/app/components/Map.js:95-99 | as written, an empty collection clears the area only, reports nothing, and throws before the alert |
| MapView.DeletedLineKeptInState | geo-frontend/app/components/Map.js:56-97 | drawing a line and deleting it leaves its km and miles in the state |
| MapView.DeletedPointThrows | geo-frontend/app/components/Map.js:85-97 | placing a Point and deleting it clears the area, keeps the point list and throws on `setLineLength`; the panel still renders |
| MapView.CommittedShapeIsExclusive | geo-frontend/app/components/Map.js:67-93 | after a Polygon, LineString or Point commit at most one measurement category holds a value |
| MapView.Render | geo-frontend/app/components/Map.js:168-204 | the panel fails exactly when `points` is null, and shows the area, the km value, the miles value beside a km value, and the first point |
| MapView.RenderFailsAfterPolygonOrLine | geo-frontend/app/components/Map.js:74-83 | as written, the render after any Polygon or LineString commit throws on `points.length` |
| MapView.CorrectedStep | geo-frontend/app/components/Map.js:61-100 | corrected: the alert is raised exactly for an empty collection outside `draw.delete` |
| MapView.CorrectedEmptyCommit | geo-frontend/app/components/Map.js:95-99 | corrected: an empty collection clears the area and both line slots, keeps the point list, and alerts iff the event is not `draw.delete` |
| MapView.CorrectedPolygonAfterPoints | geo-frontend/app/components/Map.js:67-74 | corrected: a Polygon after Points leaves an empty point list and a panel showing only the area |
| MapView.CorrectedStepKeepsPoints | geo-frontend/app/components/Map.js:61-100 | corrected: `points` stays non-null and no event throws |
| MapView.CorrectedRunRenders | geo-frontend/app/components/Map.js:61-100 | corrected: from a state with a point list, every sequence of events runs without a runtime error and the panel renders |
| MapView.CorrectedPanelShowsOneSection | geo-frontend/app/components/Map.js:67-93 | corrected: after a Polygon, LineString or Point the panel renders exactly one section |
| MapView.ReadPath | geo-frontend/app/components/Map.js:113 | a chain of member reads starting from `undefined` or `null` throws |
| MapView.LayerTypeOf | geo-frontend/app/components/Map.js:113 | `null`, a boolean or a number as data makes the read of `features[0].geometry.type` throw |
| MapView.LayerTypeOfCollection | geo-frontend/app/components/Map.js:113-133 | for a collection whose first feature has an object geometry the layer is `line` iff its type is `LineString`, else `fill` |
| MapView.LayerTypeOfNonCollection | geo-frontend/app/components/Map.js:113 | `null` data or data without `features` makes the callback throw, so no layer |
| MapView.CompletedStopsAtFirstFailure | geo-frontend/app/components/Map.js:104-135 | the callbacks that finish are exactly those before the first whose type read throws |
| MapView.SourcesForSpec | geo-frontend/app/components/Map.js:104-113 | one source per callback that runs, the throwing one included, in order, with the dataset's id and data |
| MapView.LayersForSpec | geo-frontend/app/components/Map.js:104-133 | one layer per callback that finishes, in order, with the dataset's id as layer and source id and the type its read selects |
| MapView.LoadErrorSpec | geo-frontend/app/components/Map.js:104-135 | an error escapes the dispatch exactly when some callback throws, and it is that of the first |
| MapView.MapComponent.constructor | geo-frontend/app/components/Map.js:15-18 | the slots start as `null`, `null`, `null` and an empty point list |
| MapView.MapComponent.UpdateShape | geo-frontend/app/components/Map.js:61-100 | the new slots and the effects are those of `Step` on the old slots; the map's sources and layers are untouched |
| MapView.MapComponent.LoadCallback | geo-frontend/app/components/Map.js:105-134 | adds the dataset's source, then either adds its layer or throws the read's error without a layer; the slots are unchanged |
| MapView.MapComponent.Dispatch | geo-frontend/app/components/Map.js:104-135 | runs the callbacks in order and stops at the first that throws: appends `SourcesFor` and `LayersFor`, returns `LoadError`, leaves the slots unchanged |
| MapView.MapComponent.RegisterDatasets | geo-frontend/app/components/Map.js:103-136 | `Dispatch` with each callback reading `features[0].geometry.type` |

## Findings

| source | as written | input that shows it | evidently intended | confidence | as-written member | corrected member |
|---|---|---|---|---|---|---|
| geo-frontend/app/components/Map.js:74 | Polygon and LineString commits call `setPoints(null)`; the render reads `points.length` (line 195) and a later Point spreads `[...null]` (line 89), both TypeErrors | draw any polygon or line | `setPoints([])`, the value `points` starts with (line 18) and the one the render's `points.length` (line 195) can read | high (not executed) | MapView.RenderFailsAfterPolygonOrLine | MapView.CorrectedRunRenders |
| geo-frontend/app/components/Map.js:97 | `setLineLength(null)` names no function, so the empty-collection branch throws after clearing the area: the line slots keep their values and the alert on line 98 is never raised | place a Point, then delete it: the handler throws a ReferenceError at line 97 (after a line, the surviving line slots are hidden by the line-74 defect, since the panel no longer renders) | clear `lineLengthKm` and `lineLengthMiles` with the declared setters (lines 16-17), then alert unless the event is `draw.delete` | high (not executed) | MapView.DeletedPointThrows | MapView.CorrectedEmptyCommit |

## Left out

- Floating-point measurement (`turf.area`, `turf.length`, rounding to two decimals, the ×0.621 mile factor, the division by 1 000 000): the rounded values arrive through the `measure` parameter.
- Initial-centre extraction (Map.js:23-30): it only feeds the Mapbox constructor. Line 24 reads `datasets[0].data.features[0].geometry.coordinates`, which throws when the first dataset has no `features[0].geometry` (a KML upload, an empty FeatureCollection, `null` data); the effect then stops before the map, the draw listeners (lines 56-58) and the `load` callbacks (lines 104-135) exist. `UpdateShape` and `RegisterDatasets` model the component once that read has succeeded (or there are no datasets) and the map was constructed: a first feature that is a Point passes line 24 but leaves `[undefined, undefined]` as the centre (lines 26-30), which the Mapbox constructor refuses.
- The Mapbox map and drawing lifecycle: construction, controls, `map.remove()`, and when `load` fires; `RegisterDatasets` stands for the `load` event calling its listeners in order, uncaught, so that the first throw ends the dispatch; what becomes of the escaping error is not modelled. Duplicate source ids and paint properties are not modelled.
- MapView.Render: the read `points[0].coordinates[0]` is not modelled; the first placed point is shown as a whole (points from the drawing tool always carry coordinates).
- React scheduling: state updates are applied in call order, which matches React's batching here because the handler reads state only through the `setPoints` updater. The `NotIterable` error is attributed to the event even though React raises it while rendering; the unmounting that follows a render error is not modelled.
- Filesystem and multer plumbing: the upload directory, `mkdirSync`, `readFileSync`, multipart parsing, removal of a partly written oversized file, and files sent under a field other than `file`. The status and page Express's default error handler produces for a multer error are not modelled (`Rejected`).
- The parsers `JSON.parse`, `xml2js.parseString` and `tiff.fromBuffer` are oracles; `processGeoJSON` parses its text twice, modelled as once because the parse is deterministic. Whether the KML callback runs synchronously is part of the KML oracle.
- JWT signing and verification internals (signature, expiry, the secret): `jwt.verify` is the oracle `verify`. A `next()` that throws back into `authenticate` is not modelled (Express catches errors of later middleware itself).
- Console logging: only the choice of the `processGeoJSON` log line is modelled.
- Text.Lower: maps only ASCII `A`-`Z` and U+212A KELVIN SIGN (which JavaScript lower-cases to `k`); other non-ASCII case mappings are the identity. No other character lower-cases to a plain ASCII letter alone: U+0130 becomes `i` followed by U+0307 (so JavaScript's `toLowerCase` does not always keep the length), but the U+0307 stays in the extension, so no allow-listed extension can result and no admission or dispatch decision depends on these mappings.
- Text.NumberToString: the exponent notation JavaScript uses from 10^21 on is not modelled; `Date.now()` stays far below it.
- Json.Property: inherited members such as `length` are not modelled; the keys the core reads (`type`, `features`, `geometry`, `0`) are own data properties.
- geo-backend/src/routes/authRoutes.js, geo-backend/src/index.js, geo-frontend/app/page.js, geo-frontend/app/components/FileUpload.js and geo-frontend/app/components/SignUp.js are not part of this model: database, hashing, token signing, server wiring and React UI. The client-side `accept=".geojson,.json"` is a browser hint that the server does not share.
- Concurrency: interleaved uploads and registrations, and the map's event loop.
