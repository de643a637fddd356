# tangram-es markers, scene registries, scene imports and zipped assets

A Dafny model of four sequential parts of the tangram-es map renderer, with
the projection, YAML, JavaScript, zip and GPU layers abstracted away:

- **Marker manager** (`marker_manager.dfy`, module `MarkerManagement`): the
  `MarkerManager` class owns an ordered sequence of `Marker` objects that
  user code holds by identity. The model covers adding and removing markers,
  the validity check every mutator performs, setting styling, points,
  polylines and polygons, and rebuilding meshes when the zoom changes. The
  scene's JavaScript style functions are compiled only once, tracked by a
  watermark. The map projection, the local-coordinate normalisation, the
  styling parser and the rule evaluator are uninterpreted functions. A mesh
  is an opaque value tagged with the style id and zoom it was built for.
- **Scene registries** (`scene.dfy`, module `Scenes`): the interned-name
  table, the JavaScript function table, the first-match lookups of styles,
  lights and tile sources, and the add-once asset table with its rules for
  choosing between zipped and plain assets.
- **Scene import merging** (`importer.dfy`, module `Importing`): YAML
  documents as a `Node` datatype. It covers the recursive `mergeMapFields`,
  the depth-first `importScenesRecursive` with its cycle-guarding URL stack,
  the import-list resolution, the duplicate guard of `processScene`, and
  the URL predicates.
- **Zipped assets** (`asset.dfy`, module `Assets`): the entry table of a zip
  archive, the lookup by path when decompressing, the choice of the root
  scene file inside an archive, reading an entry, and relative-asset
  dispatch. The miniz library is a record of uninterpreted functions.

Shared pieces: `wrappers.dfy` (`Option`, standing for null pointers and
absent YAML keys), `urls.dfy` (the `Url` operations, uninterpreted) and
`geometry.dfy` (bounding boxes and `BoundingBox::expand`).

Coordinates are exact reals, and integers are unbounded. Most methods that
change state are stated against a specification function of the old state
(`Built`, `Rebuilt`, `PointPlaced`, `CompileNew`, `WithFunctions`, `BuilderTable`,
`PolygonBounds`, `PolygonRings`, `AssetsAfterCreate`, `MergeMapFields`), and
lemmas state what those functions mean. The import recursion
(`ImportScenesRecursive`, `ImportEach`) has no such function; its contracts
state the cycle guard, the stack discipline and the effect on the scene table.

Two behaviours of the code are easy to miss, and the model keeps them:
- `createSceneAsset` indexes the table with the base URL first
  (`m_assets[baseStr]`). When the base is unknown, that index inserts a null
  entry, so the table can gain the base key as well as the new one
  (`Scenes.CreateAssetFrame`).
- The early returns in `importScenesRecursive` for a null or non-map
  document skip the pop, so a child's URL can stay pushed, and the parent's
  pop then removes that child instead of the parent. After the normal path
  the stack is therefore stated only to extend the one passed in.

## Model

| member | source | states |
|---|---|---|
| Geometry.Expand | core/src/marker/markerManager.cpp:118-120 | The expanded box covers the new point and contains the old box. |
| Geometry.ExpandAllCovers | core/src/marker/markerManager.cpp:114-122 | After expanding by a run of points, every point of the run lies inside the box (componentwise min <= p <= max). |
| Geometry.ExpandAllTight | core/src/marker/markerManager.cpp:115-120 | Starting from the first point's degenerate box, each corner coordinate of the result is attained by some input point, so the box is the tightest one. |
| Geometry.ExpandAllAppend | core/src/marker/markerManager.cpp:159-169 | Expanding by two runs one after the other equals expanding by their concatenation; this is how the per-ring loops add up to one bounding box. |
| Scenes.Scene.GetIdForName | core/src/scene/scene.cpp:92-98 | Returns -1 iff the name is absent; otherwise returns the index of the name's first occurrence. |
| Scenes.Scene.constructor | core/src/scene/scene.cpp:25-45 | A new scene has empty name, function, style, light and tile source tables and an empty asset table. |
| Scenes.Scene.AddIdForName | core/src/scene/scene.cpp:82-90 | A present name keeps the table and returns its existing index. A new name is appended and gets the new last index. A duplicate-free table stays duplicate-free. |
| Scenes.Scene.AddJsFunction | core/src/scene/scene.cpp:100-106 | Returns i with table[i] == function and no earlier match. The table only grows by appending, and it grows exactly when the function is new. |
| Scenes.WithFunctionsSpec | core/src/scene/scene.cpp:100-106 | Registering a sequence of functions one `addJsFunction` at a time only appends: the old table is a prefix, the new table holds exactly the old and the registered functions, and a duplicate-free table stays duplicate-free. |
| Scenes.KnownSourcesAddNothing | core/src/scene/scene.cpp:100-106 | Registering only functions the table already holds leaves the table exactly as it was. |
| Scenes.Scene.FindStyle | core/src/scene/scene.cpp:65-80 | Returns none iff no style has the name; otherwise returns the first style with that name. |
| Scenes.Scene.FindLight | core/src/scene/scene.cpp:108-113 | Returns none iff no light has the instance name; otherwise returns the first light with that name. |
| Scenes.Scene.GetTileSourceById | core/src/scene/scene.cpp:123-130 | Returns none iff no source has the id; otherwise returns the first source with that id. |
| Scenes.Scene.GetTileSourceByName | core/src/scene/scene.cpp:132-139 | Returns none iff no source has the name; otherwise returns the first source with that name. |
| Scenes.Scene.CreateSceneAsset | core/src/scene/scene.cpp:149-187 | The new asset table is the specification `AssetsAfterCreate` of the old table, whose properties are the lemmas below. |
| Scenes.CreateAssetFrame | core/src/scene/scene.cpp:156-186 | What `AssetsAfterCreate` does: nothing changes when the resolved URL is already present. Otherwise the resolved URL maps to an asset of that URL, the only other key that can appear is the base URL (with a null asset), and every existing entry is kept. |
| Scenes.ZipExtensionYieldsZippedAsset | core/src/scene/scene.cpp:158-171 | `ClassifyAsset` gives every resolved URL with the "zip" extension a zipped asset. |
| Scenes.NonZipClassification | core/src/scene/scene.cpp:172-184 | For other URLs, the asset `ClassifyAsset` picks is zipped iff the URL is relative and the parent has a zip handle. A zipped asset shares the parent's handle; otherwise the asset is plain, at the resolved URL. |
| MarkerManagement.Marker.constructor | core/src/marker/markerManager.cpp:28 | A new marker has no feature, rule, mesh, built zoom or ease. |
| MarkerManagement.MarkerManager.SetScene | core/src/marker/markerManager.cpp:9-23 | The context holds every scene function, and the watermark equals the function count, so the manager is `Synced`. The builder table gains one builder per style, keyed by name, with the last style of a name winning. Markers and zoom are unchanged. |
| MarkerManagement.BuilderTableLookup | core/src/marker/markerManager.cpp:19-21 | What `BuilderTable` holds: a name is in the table iff it was there before or some style has it. The builder of a name is that of its last style, and a name no style has keeps its old builder. |
| MarkerManagement.MarkerManager.Contains | core/src/marker/markerManager.cpp:259-264 | True iff the handle is non-null and is one of the manager's markers. |
| MarkerManagement.MarkerManager.Add | core/src/marker/markerManager.cpp:25-37 | Appends exactly one fresh marker at the end, with earlier markers in order. The new marker is empty except for the parsed rule. The scene table gains the styling's functions as `addJsFunction` adds them, and the context gains the table past the watermark; from a synced manager the context then equals the table and holds every styling function. |
| MarkerManagement.MarkerManager.Remove | core/src/marker/markerManager.cpp:39-47 | Returns true iff the marker is in the collection, and then erases exactly that entry while keeping the order of the rest. On false the collection is unchanged. The marker is absent afterwards, and no other field changes. |
| MarkerManagement.MarkerManager.RemoveAll | core/src/marker/markerManager.cpp:218-222 | The collection is empty; no other field changes. |
| MarkerManagement.MarkerManager.Build | core/src/marker/markerManager.cpp:228-257 | The marker's new state is `Built` of its old state, whose meaning is `BuildOutcome`. |
| MarkerManagement.BuildOutcome | core/src/marker/markerManager.cpp:233-255 | What `Built` computes: build is a no-op unless the rule and feature exist, the style has a builder and the rule evaluates as valid. It then sets a mesh tagged with the builder's style id and the zoom, built from the current feature and rule. Feature, rule, bounds and ease never change. |
| MarkerManagement.MarkerManager.SetStyling | core/src/marker/markerManager.cpp:49-69 | Returns false and mutates nothing, the scene included, for a null or foreign marker. Otherwise the parse registers the styling's functions in the scene table (`WithFunctions`), the functions from the old watermark to the new count are appended to the context, each once and in order, and the watermark becomes the count. A synced manager stays synced, and its context then holds every function the styling registered. When every styling function is already compiled in a fully synced manager, as after the same call once before, the table, context and watermark do not change. The rule is replaced and the marker rebuilt at the current zoom. |
| MarkerManagement.MarkerManager.CompileSceneFunctions | core/src/marker/markerManager.cpp:57-62 | The compile loop: the context gains the scene functions from the watermark to the current count, each once and in order, and the watermark becomes the count (`CompileNew`, whose meaning is `WatermarkCatchesUp`). |
| MarkerManagement.WatermarkCatchesUp | core/src/marker/markerManager.cpp:58-62 | What `CompileNew` achieves: if the context held exactly the scene's functions at the watermark and the scene's table only grew by appending, then after compiling the context holds exactly the current functions, each once. |
| MarkerManagement.StylingFunctionsCompiled | core/src/marker/markerManager.cpp:53-62 | From a context synced with the table at the watermark, registering the styling's functions and compiling from the watermark leaves the context equal to the new table, which holds every registered function. |
| MarkerManagement.RestylingTwiceAddsNothing | core/src/marker/markerManager.cpp:49-62 | Restyling is idempotent: after one restyling from a synced context, a second one with the same text registers no function and compiles nothing, so table, context and watermark are unchanged. |
| MarkerManagement.RegisterFunctions | core/src/marker/markerManager.cpp:55 | The function registrations of the styling parse: the scene table becomes `WithFunctions` of the old table and the sources, one `addJsFunction` per source in order. |
| MarkerManagement.MarkerManager.SetPoint | core/src/marker/markerManager.cpp:71-88 | Returns false and mutates nothing for a null or foreign marker. Otherwise, unless a point mesh already exists, it installs a one-point feature and builds it. It then sets the bounds to the degenerate box at the projected point. |
| MarkerManagement.PointPlacedOutcome | core/src/marker/markerManager.cpp:71-88 | What `PointPlaced` computes: the bounds are the degenerate box at the point and the rule and ease are kept. Without a point mesh the feature is replaced by one point at the origin and built; otherwise only the bounds change. Once a mesh exists, placing the point again changes only the bounds. |
| MarkerManagement.MarkerManager.SetPointEased | core/src/marker/markerManager.cpp:90-102 | Succeeds iff the marker is valid and already has a built point feature. It then records only the ease target (the projected destination, duration and curve); on failure nothing changes. |
| MarkerManagement.MarkerManager.SetPolyline | core/src/marker/markerManager.cpp:104-144 | Returns false and mutates nothing for a null or foreign marker, null coordinates or count < 2. Otherwise the bounds are the projected bounding box of the first `count` coordinates. The feature becomes one line of their local points, and the marker is rebuilt. |
| MarkerManagement.ExpandRun | core/src/marker/markerManager.cpp:118-120 | The loop's box is `ExpandAll` of the run, optionally restarting from the run's first point. |
| MarkerManagement.PolylineBoundsTight | core/src/marker/markerManager.cpp:114-122 | The polyline bounds in degrees cover every input coordinate, and each corner coordinate is attained by one of them. |
| MarkerManagement.LocalizeLine | core/src/marker/markerManager.cpp:129-135 | The loop's points are `LocalLine` of the run: each coordinate projected and normalised, in order. |
| MarkerManagement.LocalLineLength | core/src/marker/markerManager.cpp:131-135 | The built line has exactly as many points as input coordinates. |
| MarkerManagement.LocalLineAt | core/src/marker/markerManager.cpp:131-135 | Point i of the built line is coordinate i projected and normalised, with z = 0. |
| MarkerManagement.LocalLineAppend | core/src/marker/markerManager.cpp:180-191 | Normalising a concatenation of runs gives the concatenation of the normalised runs. |
| MarkerManagement.MarkerManager.SetPolygon | core/src/marker/markerManager.cpp:146-200 | Returns false and mutates nothing for a null or foreign marker, null coordinates or counts, or rings < 1. Otherwise the bounds are the projected `PolygonBounds`, the feature becomes one polygon of `PolygonRings`, and the marker is rebuilt. Negative counts are accepted: such a ring is empty and the next ring starts that many coordinates earlier. |
| MarkerManagement.MarkerManager.PolygonDegreesBounds | core/src/marker/markerManager.cpp:156-169 | The nested loops, advancing the ring pointer by each signed count, compute `PolygonBounds`: the default box, or the first coordinate's box when the outer ring is non-empty, expanded by every coordinate of every ring run in order. |
| MarkerManagement.MarkerManager.ExpandRing | core/src/marker/markerManager.cpp:159-168 | One pass of the outer loop: from the bounds of the first i rings and the signed ring offset, it yields the bounds of the first i + 1 rings. |
| MarkerManagement.PolygonBoundsCover | core/src/marker/markerManager.cpp:156-171 | The polygon bounds cover every coordinate of every ring run. When the outer ring is non-empty, each corner coordinate is attained by a coordinate of some ring run. |
| MarkerManagement.MarkerManager.LocalRings | core/src/marker/markerManager.cpp:178-191 | The nested loops, advancing the ring pointer by each signed count, compute `PolygonRings`: one line per ring, ring i being the local points of its run. |
| MarkerManagement.PolygonRingsConsecutive | core/src/marker/markerManager.cpp:178-191 | There are exactly `rings` rings; ring i is the local points of run i, and the rings read in order are the local points of the runs read in order. When no count is negative, the runs read in order are exactly the first Sum(counts) coordinates. |
| MarkerManagement.NegativeCountStepsBack | core/src/marker/markerManager.cpp:159-168 | A negative count moves the ring pointer back: counts 2, -1, 2 over three coordinates are readable and give the runs [c0, c1], [] and [c1, c2]. |
| MarkerManagement.RingRunsFirst | core/src/marker/markerManager.cpp:159-165 | The runs read in order begin with the outer ring's run, so when the outer ring is non-empty the first coordinate read is coordinates[0], the point the bounds start from. |
| MarkerManagement.MarkerManager.Update | core/src/marker/markerManager.cpp:202-216 | With the current zoom, returns false and changes no marker. Otherwise every marker built for another zoom (or never built) is rebuilt at the new zoom, the rest are untouched, and it returns true iff there was such a marker. The zoom becomes the target; the collection and other fields are unchanged. |
| MarkerManagement.RebuiltIdempotent | core/src/marker/markerManager.cpp:208-213 | The update step `Rebuilt` applied twice at the same zoom equals applying it once. |
| Importing.LookupSpec | core/src/scene/importer.cpp:365-367 | Indexing a map by a key finds nothing iff no entry has the key; otherwise it finds the value of the first entry with that key. |
| Importing.MergeMapFields | core/src/scene/importer.cpp:361-402 | The merged document's keys are exactly the target's keys and the import's keys, and the result is a map iff the target was a map or the import has an entry. Per key values are in `MergePrefixLookup` and `MergeLaterWins` (through `Merged` and `MergeValue`). |
| Importing.MergePrefix | core/src/scene/importer.cpp:363-401 | Merging any prefix of the import's entries leaves the target a null or map node, as the loop over the import's entries does. |
| Importing.MergePrefixLookup | core/src/scene/importer.cpp:361-402 | After merging, a key the import lacks keeps the target's value. A key only the import has takes the import's value. A key both have takes the merge of the two values. |
| Importing.MergeLaterWins | core/src/scene/importer.cpp:363-401 | A non-map import value overwrites the target's. A map import value is merged recursively into a map target. A key the import lacks keeps the target's value. |
| Importing.MergePrefixKeys | core/src/scene/importer.cpp:363-372 | The merged keys are the union of the target's keys and the import's keys, and a null target becomes a map as soon as an entry is merged. |
| Importing.NodeIsPotentialUrl | core/src/scene/importer.cpp:143-151 | True iff the node is present, is a scalar, and is not of the form "global." followed by any text. |
| Importing.NodeIsTextureUrl | core/src/scene/importer.cpp:153-167 | True iff the node is a present scalar that is not a "global." reference, decodes as neither a boolean nor a number, and is not the key of any entry of the scene's texture map (when that is a map). |
| Importing.GlobalReferenceIsNoUrl | core/src/scene/importer.cpp:148 | A "global." reference is never a potential URL or a texture URL. |
| Importing.ScalarValuesSpec | core/src/scene/importer.cpp:308-315 | The paths of an import sequence are its scalar elements: a string is listed iff it is a scalar element. Nothing is dropped when every element is a scalar. |
| Importing.ImportPathsSpec | core/src/scene/importer.cpp:297-320 | A document without `import` has no import paths. Otherwise a path is listed iff the `import` value is that scalar or a sequence holding that scalar. |
| Importing.Importer.GetResolvedImportUrls | core/src/scene/importer.cpp:297-320 | A scalar import gives one URL, and a sequence gives one URL per scalar element, in order; anything else gives none. Each URL is resolved against the base, and the asset table is that after creating an asset per path. |
| Importing.CreateAllCoversImports | core/src/scene/importer.cpp:303-317 | After resolving the imports, every import URL has an asset-table entry, and existing entries are kept. |
| Importing.Importer.ProcessScene | core/src/scene/importer.cpp:120-141 | A URL already in the scene table, or text that does not parse, changes nothing. Otherwise it records the document under its URL and appends its resolved imports to the queue in order. |
| Importing.Importer.Enqueue | core/src/scene/importer.cpp:135-137 | The queue becomes the old queue followed by the resolved imports, in order. |
| Importing.OnStack | core/src/scene/importer.cpp:328-334 | True iff the URL is already on the import stack. |
| Importing.Importer.ImportScenesRecursive | core/src/scene/importer.cpp:322-359 | A URL on the stack changes nothing, so cyclic imports stop. A missing, null or non-map document stays pushed and merges nothing. A map document loses its `import` key in the table, and the stack then extends the one passed in. The new root is the document body merged last, over the root its imports produced (`imported`), with its URLs resolved against the document's URL, so the document's own values win. With no imports the body is merged straight into the root passed in (`imported == root`), and the stack comes back as it was. |
| Importing.Importer.ImportEach | core/src/scene/importer.cpp:348-352 | The loop over imports keeps root null or a map and only grows the stack. It changes no document on the stack. With no imports it changes nothing: root, stack, scene table and asset table stay as they were. |
| Assets.IsBaseSceneYamlSpec | core/src/scene/asset.cpp:120-127 | What `IsBaseSceneYaml` decides: a path is a base scene file iff it contains ".yaml" and contains no '/'. |
| Assets.Find | core/src/scene/asset.cpp:121-123 | `std::string::find`: returns the first position where the pattern occurs, or none iff it occurs nowhere. |
| Assets.ScanRootPath | core/src/scene/asset.cpp:108-112 | The scan yields `RootPath` of the entries. |
| Assets.LastBaseScene | core/src/scene/asset.cpp:108-112 | Finds the last entry that is a base scene file, or none when no entry is. |
| Assets.ZippedAsset.FromData | core/src/scene/asset.cpp:102-113 | Opens a fresh archive on the data. Its entries are the archive's table when the reader accepts the data, and empty otherwise. The path in the archive is that of the last base scene entry, or "" when there is none. |
| Assets.EntryTable | core/src/scene/asset.cpp:37-48 | One entry per file index, in index order. An entry whose stat fails has an empty path and size 0. |
| Assets.ZipArchive.constructor | core/src/scene/asset.cpp:18-20 | A new archive holds no data and no entries. |
| Assets.ZipArchive.LoadFromMemory | core/src/scene/asset.cpp:30-49 | Keeps the data and succeeds iff the reader accepts it. On success it appends the archive's entry table; on failure the entries are unchanged. |
| Assets.FirstEntry | core/src/scene/asset.cpp:55-61 | Returns none iff no entry has the path; otherwise returns the first index with it. |
| Assets.ZipArchive.DecompressFile | core/src/scene/asset.cpp:54-71 | Returns false with no buffer when no entry has the path. Otherwise it uses the first matching entry and requests a buffer of exactly its uncompressed size. Success is whether extraction succeeds. |
| Assets.Fit | core/src/scene/asset.cpp:134-137 | A buffer resized to n holds n characters: the written bytes, then zeros. |
| Assets.ZippedAsset.ReadBytes | core/src/scene/asset.cpp:129-144 | Returns empty without an archive or without a matching entry. Otherwise returns the decompressed entry, sized to its uncompressed size. |
| Assets.Asset.constructor | core/src/scene/asset.cpp:87 | A plain asset keeps the URL it is created with. |
| Assets.Asset.GetRelativeAsset | core/src/scene/asset.cpp:93-96 | A fresh plain asset at the URL resolved against this asset's URL. |
| Assets.ZippedAsset.GetRelativeAsset | core/src/scene/asset.cpp:146-152 | An absolute URL gives a fresh plain asset at that URL. A relative URL gives a fresh zipped asset that shares this archive and uses the URL's path. |
| Assets.ZippedAsset.Relative | core/src/scene/asset.cpp:115-118 | Shares the base's URL and archive, and uses the given path. |

## Left out

- The download worker loop of `Importer::applySceneImports`: it is concurrency (a mutex, a condition variable, an atomic counter and asynchronous URL callbacks). Its queue is modelled only as far as `processScene` fills it.
- `resolveSceneUrls`, which rewrites texture, font and source URLs and creates their assets: it is an uninterpreted function on root's entries.
- YAML parsing (`YAML::Load`), `SceneLoader::parseStyleParams` and the Duktape style context: parsing and parameter conversion are uninterpreted functions (sceneLoader.cpp is not part of this model). The styling parse returns the draw rule and the JavaScript function sources it registers with the scene, and the model registers those sources with `addJsFunction` semantics before the watermark loop. Rule evaluation is an uninterpreted boolean. The compiled style context is modelled as the sequence of function sources added to it.
- The map projection `LonLatToMeters`, the `1 / extent` scale and `(meters - origin) * scale`: uninterpreted functions on exact reals, with no floating-point rounding.
- Style builders and meshes: a builder is its style id, and a mesh is an opaque value tagged with style id, zoom, feature and rule.
- The miniz library: reader initialisation, file count, file stat and extraction are uninterpreted functions of the archive bytes.
- `Asset::readBytes` on a plain asset reads a file through the platform; it is I/O.
- `Url` operations (resolution, path extension, scheme and absoluteness tests, path): uninterpreted functions.
- The ZippedAsset objects that `createSceneAsset` constructs from platform bytes or a network callback: the asset table records which kind of asset is made and where its archive comes from (`Scenes.SceneAsset`), not the objects themselves.
- `MarkerManager::markers()`: the `markers` field is readable directly.
- `Remove` and `RemoveAll` do not model the destruction of the erased markers; the model only guarantees that they leave the collection.
- The marker's own setters and `builtZoomLevel` (marker.h/marker.cpp are not part of this model): `builtZoom` is `None` until a mesh has been set, and update rebuilds such a marker.
- `MarkerManagement.MarkerManager.Add` requires a bound scene: the source dereferences the scene pointer while styling the new marker.
- `MarkerManagement.MarkerManager.SetPolyline` requires the caller's buffer to hold `count` coordinates, and `SetPolygon` requires `rings` counts and every ring with a positive count to lie inside the coordinate buffer (`RingsReadable`). The source reads raw pointers without bounds, and a read outside the buffer is undefined behaviour. Negative counts are modelled: the ring is empty and the ring pointer moves back.
- Node aliasing: yaml-cpp nodes are references, and the model uses values. The only aliasing effect modelled is that removing `import` from a document is visible in the scene table.
- The exception yaml-cpp throws when a scalar document is indexed: `Get` returns nothing for a non-map node.
- Importing.Importer.ImportScenesRecursive: the ghost result `imported` (root after the imports) is tied to root only when the document has no imports. There is no closed form for it: `resolveSceneUrls` is uninterpreted, and each child call rewrites the scene table that later siblings read. Which assets the merged documents create is not stated. After the normal path the stack is stated only to extend the stack passed in, because a child's leaked push makes the final pop remove that child instead.
- Importing.Importer.ImportEach: the root it returns is not tied to the merged imports beyond staying a null or map node.
- Scenes.Scene.CreateSceneAsset: on the relative path to a ".zip" file, scene.cpp:166-168 asserts that the parent asset of `base` exists. The model does not require it: it records a zipped asset whose archive comes from the parent (`FromParent(base)`), and the index on `base` may have inserted a null entry. The source aborts there in a debug build and dereferences null otherwise. The path is reachable, for example from an inline root scene that is processed without creating its own asset (importer.cpp:22-24), so a requires would exclude callers the source admits.
- The `ZippedAsset(url)` and `ZippedAsset(url, handle, bytes)` constructors that `createSceneAsset` calls, and `readBytesFromAsset`, are not part of this model (asset.h and asset.cpp declare other constructors): `Scenes.ZipHandleOf` takes the handle of such an asset to be that of its archive, and null for a deferred one.
- The constructors of `MarkerManager` and `Importer` (markerManager.h and importer.h are not part of this model): the model's constructors take the initial zoom and the uninterpreted functions as parameters and start with empty tables, no scene and watermark 0.
- Assets.ZipArchive.LoadFromMemory is modelled for the call that the ZippedAsset constructor makes on a fresh archive (asset.cpp:102-105); the miniz reader state that a repeated call would find is not modelled, and such a call would append a second entry table.
- Importing.MergePrefixLookup and Importing.MergeLaterWins are stated for imports whose map has no duplicate keys. `MergePrefix` itself, like `mergeMapFields`, processes every pair in order, and `MergePrefixKeys` and `MergeMapFields` hold without that restriction; for a repeated key the model does not state which pair decides the value.
