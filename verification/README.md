# pylast core: tailcuts cleaning, the dotted-path configuration store, spline lookup

This project models three sequential parts of the pylast event-processing
library and proves what they promise.

- **Tailcuts image cleaning** (`src/ImageCleaner.cpp`). A camera image is one
  charge per pixel and a mask is one flag per pixel. The camera's
  pixel-adjacency relation is given. The neighbour-matrix product
  `neigh_matrix * m` becomes "how many neighbours j have m[j]".
  - `TailcutsClean` keeps boundary pixels next to the picture and picture
    pixels. Unless isolated pixels are kept, a picture pixel must also touch a
    boundary pixel.
  - `Dilate` grows a mask by one adjacency step.
  - `TailcutsClean2` derives both thresholds from the image's peak.
  - `Apply` is the configured cleaner's `operator()`.
  - `PictureMask` is the picture stage. `Retained` is an independent reference
    definition of which pixels survive. The test camera is the 4 x 4 grid.
- **Configuration store** (`include/ConfigSystem.hh`). JSON is a recursive
  datatype. nlohmann's objects iterate their members in ascending key order,
  which `Paths.SortedKeys` models. `merge_patch` is the MergePatch algorithm
  of section 2 of RFC 7396. The model covers:
  - dotted paths: `SplitPath`;
  - typed writes and reads along a path: `SetJsonValue`, `GetJsonValue`;
  - the defaults document: `BuildDefaultConfig`;
  - the value every parameter's setter receives: `ApplyConfig`;
  - expansion of dotted user keys: `ProcessUserConfig`;
  - merging user settings over the defaults: `MergeConfig`;
  - the whole initialization: `Initialize`.

  The cleaner's own parameters and the test suite's configurable classes are
  modelled on top of the store.
- **Table lookup and cubic splines** (`src/rpolator.c`). Doubles are exact
  reals.
  - `Interp` is the bracketing binary search with clamping at the ends of the
    table.
  - `SetCubicParams` is set_1d_cubic_params: validation, the tridiagonal
    system and its solution. Its result is proved to be an interpolating,
    smoothly joined natural or clamped spline.
  - `Csx` is the Horner evaluation.
  - `RpolCspline` is the guarded evaluation, with clipping outside the table.

Module layout:

| file | module | contents |
|---|---|---|
| `outcomes.dfy` | `Outcomes` | `Option` and `Result`, plus the store's error kinds |
| `camera.dfy` | `Camera` | adjacency, neighbour counts, the 4 x 4 test camera |
| `image_cleaner.dfy` | `ImageCleaner` | the cleaning operations and their reference definition |
| `cleaning_properties.dfy` | `CleaningProperties` | properties of cleaning and dilation |
| `cleaning_scenarios.dfy` | `CleaningScenarios` | the outcomes the cleaning tests expect |
| `json.dfy` | `JsonValues` | JSON values, path navigation, RFC 7396 MergePatch |
| `paths.dfy` | `Paths` | splitPath, key order, the order of an object's members |
| `config_system.dfy` | `ConfigSystem` | the store's operations, write locality, where the defaults land |
| `config_properties.dfy` | `ConfigProperties` | round trips, user-key processing, initialization results |
| `config_scenarios.dfy` | `ConfigScenarios` | the outcomes the configuration tests expect |
| `cleaner_config.dfy` | `CleanerConfig` | the cleaner's registered parameters and defaults |
| `spline_algebra.dfy` | `SplineAlgebra` | the algebra behind the spline coefficients |
| `rpolator.dfy` | `Rpolator` | interp, set_1d_cubic_params, csx, rpol_cspline |

## Model

| member | source | states |
|---|---|---|
| ImageCleaner.PictureMask | src/ImageCleaner.cpp:34-45 | A pixel is in the picture exactly when it reaches the picture threshold and, unless isolated pixels are kept or no neighbours are demanded, has at least the demanded number of neighbours at the picture threshold (`InPicture`). |
| ImageCleaner.TailcutsClean | src/ImageCleaner.cpp:32-57 | The mask has one flag per pixel. A pixel is kept exactly when it is a boundary pixel with a picture neighbour, or a picture pixel that (without keep_isolated_pixels) has a neighbour at the boundary threshold (`Retained`). |
| ImageCleaner.Dilate | src/ImageCleaner.cpp:62-68 | A pixel is set after dilation exactly when it was set or some neighbour was. |
| ImageCleaner.MaxCharge | src/ImageCleaner.cpp:75 | The result bounds every charge and is attained by some pixel; it is 0 for an empty image. |
| ImageCleaner.AutoPicture | src/ImageCleaner.cpp:77 | The automatic picture threshold is at least 10 and at least a tenth of the peak, and equals one of the two. |
| ImageCleaner.AutoBoundary | src/ImageCleaner.cpp:78 | The automatic boundary threshold is at least 5 and at least a twentieth of the peak, and equals one of the two. |
| ImageCleaner.TailcutsClean2 | src/ImageCleaner.cpp:71-88 | The kept pixels are those `Retained` under the automatic thresholds, with the cleaner's own isolation and neighbour settings. |
| ImageCleaner.Apply | src/ImageCleaner.cpp:27-30 | operator() keeps the pixels `Retained` under the cleaner's four configured fields. |
| Camera.NeighbourCount | src/ImageCleaner.cpp:41 | A row of the neighbour-matrix product is positive exactly when some neighbour is flagged, and never exceeds the pixel's neighbour count. |
| Camera.Grid4x4 | test/test_image_processor.cpp:46-63 | The test camera has 16 pixels, one neighbour set each. |
| Camera.Grid4x4SharesEdges | test/test_image_processor.cpp:46-63 | Pixel j is a neighbour of pixel i exactly when the two share an edge of the 4 x 4 unit-pitch grid laid out row by row (index 4 * row + column). |
| Camera.Grid4x4WellFormed | test/test_image_processor.cpp:46-64 | The 4 x 4 unit-pitch test camera's adjacency is symmetric and irreflexive. |
| CleaningProperties.CleanKeepsOnlyCharged | src/ImageCleaner.cpp:46-56 | Every kept pixel reaches the boundary or the picture threshold. |
| CleaningProperties.CleanWithoutPictureIsEmpty | src/ImageCleaner.cpp:32-56 | If no pixel reaches the picture threshold, nothing is kept. |
| CleaningProperties.CleanZeroImage | test/test_image_processor.cpp:65-71 | The all-zero image under a positive picture threshold cleans to the empty mask, on any camera. |
| CleaningProperties.CleanKeepsIsolatedPicture | src/ImageCleaner.cpp:36-38 | With keep_isolated_pixels, every pixel at the picture threshold is kept. |
| CleaningProperties.CleanDropsPoorlyConnected | src/ImageCleaner.cpp:42-44 | Without keep_isolated_pixels and with a positive neighbour demand, a pixel with too few bright neighbours is kept exactly when it is a boundary pixel next to the picture. |
| CleaningProperties.CleanPictureNeedsBoundaryNeighbour | src/ImageCleaner.cpp:52-55 | Without keep_isolated_pixels, a picture pixel with no neighbour at the boundary threshold is kept only as a boundary pixel next to the picture. |
| CleaningProperties.CleanHasNoIsolatedPixels | src/ImageCleaner.cpp:52-55 | Without keep_isolated_pixels, on a symmetric camera, every kept pixel has a kept neighbour. |
| CleaningProperties.CleanUniformImageKeepsAll | src/ImageCleaner.cpp:32-56 | An image at or above both thresholds everywhere keeps every pixel, on a camera where each pixel has a neighbour and at least the demanded number of them. |
| CleaningProperties.NeighboursAtLeastMonotone | src/ImageCleaner.cpp:41 | Neighbour counts above a threshold grow with the charges and as the threshold falls. |
| CleaningProperties.CleanMonotone | src/ImageCleaner.cpp:32-56 | Raising charges or lowering thresholds never removes a kept pixel. |
| CleaningProperties.DilateExtensive | src/ImageCleaner.cpp:62-68 | Dilation never removes a pixel: m is contained in dilate(m). |
| CleaningProperties.DilateMonotone | src/ImageCleaner.cpp:62-68 | A larger mask dilates to a larger mask. |
| CleaningProperties.DilateSinglePixel | src/ImageCleaner.cpp:62-68 | On a symmetric camera, dilating one pixel gives exactly that pixel and its neighbours. |
| CleaningProperties.DilateCornerOf4x4 | test/test_image_processor.cpp:256-281 | Corner pixel 0 of the test camera dilates to {0, 1, 4}. |
| CleaningProperties.Clean2KeepsAtLeastFive | src/ImageCleaner.cpp:77-78 | Under automatic thresholds every kept pixel carries a charge of at least 5. |
| CleaningProperties.Clean2FaintImageIsEmpty | src/ImageCleaner.cpp:75-87 | An image whose peak is below 10 cleans to nothing under automatic thresholds. |
| CleaningProperties.Clean2KeepsPeak | src/ImageCleaner.cpp:75-87 | With keep_isolated_pixels, the brightest pixel of an image peaking at 10 or more is kept. |
| CleaningScenarios.ScenarioEmptyImage | test/test_image_processor.cpp:65-71 | The zero image with thresholds 1 / 1 keeps no pixel. |
| CleaningScenarios.ScenarioConstantImage | test/test_image_processor.cpp:72-77 | A constant image of 10 with thresholds 1 / 1 keeps all 16 pixels. |
| CleaningScenarios.ScenarioSoloAboveThreshold | test/test_image_processor.cpp:78-89 | A constant image of 5 with pixel 10 at 10 and thresholds 8 / 1 keeps exactly {6, 9, 10, 11, 14}. |
| CleaningScenarios.ScenarioKeepIsolatedPixels | test/test_image_processor.cpp:90-103 | With isolated pixels kept and thresholds 8 / 2, exactly {0, 6, 9, 10} survive. |
| CleaningScenarios.NoKeepIsolatedSeeds | test/test_image_processor.cpp:105-112 | With two bright neighbours demanded, only pixel 10 of that image is in the picture. |
| CleaningScenarios.ScenarioNoKeepIsolatedPixels | test/test_image_processor.cpp:105-118 | With two bright neighbours demanded and thresholds 8 / 2, pixel 0 is dropped and exactly {6, 9, 10} survive. |
| Paths.SplitPath | include/ConfigSystem.hh:184-204 | No piece is empty and no piece contains a dot. |
| Paths.SplitPathConcat | include/ConfigSystem.hh:184-204 | The pieces, written one after another, spell the path with every dot removed, so leading, trailing and repeated dots vanish. |
| Paths.SplitJoin | include/ConfigSystem.hh:184-204 | Joining non-empty, dot-free pieces with dots and splitting again gives the pieces back. |
| Paths.SplitPlainKey | include/ConfigSystem.hh:184-204 | A non-empty key without dots is a one-piece path. |
| Paths.SplitThreePieces | test/test_configurable.cpp:8-16 | "a.b.c" splits into "a", "b" and "c". |
| Paths.SortedKeys | include/ConfigSystem.hh:108-112 | The members of an object are visited once each, in strictly ascending key order. |
| Paths.SortedKeysUnique | include/ConfigSystem.hh:108-112 | A strictly ascending listing of exactly the object's keys is the visiting order. |
| Paths.SortedThreeKeys | include/ConfigSystem.hh:108-112 | Three keys in ascending order are visited in that order. |
| JsonValues.MergePatch | include/ConfigSystem.hh:216-220 | A non-object patch replaces the target. An object patch gives an object holding exactly the patch's non-null members and the target's members the patch does not name. |
| JsonValues.MergePatchMember | include/ConfigSystem.hh:216-220 | A non-null member of the patch is merged into the target's member at that key, or into null if there is none. |
| JsonValues.MergePatchUntouched | include/ConfigSystem.hh:216-220 | A path the patch does not reach keeps its value from the target. |
| JsonValues.MergePatchOverrides | include/ConfigSystem.hh:216-220 | A patch value that is neither null nor an object ends up exactly at its path. |
| JsonValues.MergePatchDeletes | include/ConfigSystem.hh:216-220 | A null in the patch removes the member at its path. |
| JsonValues.MergePatchIdempotent | include/ConfigSystem.hh:216-220 | Applying the same patch twice gives the same result as applying it once. |
| JsonValues.MergePatchReplaces | include/ConfigSystem.hh:216-220 | A patch that gives every member of the target a plain value replaces the target entirely. |
| ConfigSystem.Wrap32 | include/ConfigSystem.hh:209 | Narrowing to a C++ int keeps every value that fits and is congruent to the input modulo 2^32. |
| ConfigSystem.TruncateToInt | include/ConfigSystem.hh:165 | Reading a floating value as an int drops the fraction toward zero. |
| ConfigSystem.Convert | include/ConfigSystem.hh:163-174 | Reading a JSON value as the default's type gives a value of that type, or a type error. |
| ConfigSystem.ConvertToJson | include/ConfigSystem.hh:163-174 | A stored value read back as its own type is that value. |
| ConfigSystem.JsonToAny | include/ConfigSystem.hh:205-213 | Null becomes an unsupported value and nothing else does. Every other value is stored back as itself, except that integers are narrowed to 32 bits. |
| ConfigSystem.Assign | include/ConfigSystem.hh:128-139 | Assigning to a key succeeds exactly on null or an object. On success the key holds the value and every other key is unchanged. |
| ConfigSystem.SetAt | include/ConfigSystem.hh:120-139 | For a handled value type, the walk succeeds exactly when every value met on the path is null or an object. On success the path holds the value. |
| ConfigSystem.SetJsonValue | include/ConfigSystem.hh:115-140 | An empty path fails. Otherwise, for a handled type, the write succeeds exactly when the path is writable, and then the path holds the value. |
| ConfigSystem.GetAt | include/ConfigSystem.hh:149-178 | A missing member on the path, or an unhandled default type, gives "not found" and the default. Otherwise the result is the value converted to the default's type. |
| ConfigSystem.GetJsonValue | include/ConfigSystem.hh:143-181 | An empty path fails. A missing path or an unhandled default gives "not found" and the default. Otherwise the value is converted to the default's type, and any result has the default's type. |
| ConfigSystem.ApplyConfig | include/ConfigSystem.hh:90-99 | Succeeds exactly when every parameter's lookup succeeds. Then each parameter, in registration order, receives its lookup's value, which has its default's type. |
| ConfigSystem.ProcessUserConfig | include/ConfigSystem.hh:102-113 | Null or any other non-object user configuration is passed through unchanged. |
| ConfigSystem.MergeConfig | include/ConfigSystem.hh:216-220 | A non-object override replaces the base. Every path the override does not reach keeps the base's value. |
| ConfigSystem.Initialize | include/ConfigSystem.hh:36-44 | On success every registered parameter receives a value of its default's type. |
| ConfigProperties.GetAfterSet | include/ConfigSystem.hh:115-181 | After a successful write of a handled value, reading the same path as that type finds exactly the value written. |
| ConfigSystem.SetJsonValueOffPath | include/ConfigSystem.hh:120-139 | A write changes nothing at any path that parts ways with the written one. |
| ConfigSystem.SetAtKeepsNavigable | include/ConfigSystem.hh:120-139 | A write keeps every path that parts ways with it writable. |
| ConfigSystem.SetAllKeeps | include/ConfigSystem.hh:78-87 | Writing defaults whose paths all part ways with q leaves q's value alone. |
| ConfigSystem.SetAllPlaces | include/ConfigSystem.hh:78-87 | Writing well-formed parameters' defaults succeeds and puts each default at its own path. |
| ConfigSystem.BuildDefaultConfig | include/ConfigSystem.hh:78-87 | With well-formed parameters, buildDefaultConfig succeeds and every default can be read back at its own path. |
| ConfigProperties.ReadsDefault | include/ConfigSystem.hh:143-181 | A parameter whose path holds its own default reads back exactly that default. |
| ConfigProperties.ApplyValueOrDefault | include/ConfigSystem.hh:90-99 | applyConfig gives a parameter the configuration's value, converted to the default's type, when its path holds one. Otherwise, or when the default's type is unhandled, it gives the default. |
| ConfigProperties.InitializeWithoutUserConfig | include/ConfigSystem.hh:36-44 | Without user settings, initialization succeeds, the active configuration is the defaults, and every parameter receives its default. |
| ConfigProperties.InitializeOverridesDefaults | include/ConfigSystem.hh:36-44 | A parameter the processed user settings do not reach keeps its default. One they set to a plain value receives that value, read as the default's type. |
| ConfigProperties.JsonParamReads | include/ConfigSystem.hh:172-174 | A parameter read as JSON can always be read. |
| ConfigProperties.SettledByMember | include/ConfigSystem.hh:36-44 | A plain-key parameter is settled by a user object that omits its key or gives it a readable plain value. |
| ConfigProperties.PlainObjectSettles | include/ConfigSystem.hh:36-44 | Every plain-key parameter is settled by such a user object. |
| ConfigProperties.InitializeSucceeds | include/ConfigSystem.hh:36-44 | Initialization succeeds when processing succeeds and every parameter is settled by the processed settings. |
| ConfigProperties.InitializeSeesProcessed | include/ConfigSystem.hh:36-44 | Two user configurations that process to the same document initialize identically. |
| ConfigProperties.WritePlainMember | include/ConfigSystem.hh:108-112 | Writing a plain member into null or an object stores it under its key. |
| ConfigProperties.NestUnder | include/ConfigSystem.hh:115-139 | Writing under "p.a" puts the value as member a of the object at p, creating the object if it is missing. |
| ConfigProperties.SetMembersNests | include/ConfigSystem.hh:108-112 | Writing a plain member c, then "p.a", then "p.n", from null gives c beside one object p holding a and n. |
| ConfigProperties.ProcessNests | include/ConfigSystem.hh:102-113 | processUserConfig turns a plain member c and dotted members "p.a" and "p.n" into c beside an object p holding a and n. |
| ConfigProperties.SetMembersCopies | include/ConfigSystem.hh:108-112 | Writing plain members one by one copies them into the object. |
| ConfigProperties.ProcessPlainObject | include/ConfigSystem.hh:102-113 | A user object made only of plain members comes through processing unchanged. |
| ConfigProperties.InitializeFromPlainObject | include/ConfigSystem.hh:36-44 | For plain-key parameters and a user object of plain members: a member named like a parameter overrides its default, read as the default's type; every other parameter keeps its default. |
| ConfigProperties.MemberParams | include/ConfigSystem.hh:108-112 | Each user member becomes a write of its value, converted by json_to_any, at its key, in order. |
| ConfigProperties.SetMembersWritesParams | include/ConfigSystem.hh:108-112 | Writing the members is writing parameters whose defaults are the members' values. |
| ConfigProperties.MemberParamsWellFormed | include/ConfigSystem.hh:108-112 | Members with separate paths, written without repeats, form well-formed parameters. |
| ConfigProperties.ProcessPlacesMembers | include/ConfigSystem.hh:102-113 | If the members' paths pairwise part ways, processing succeeds and each member lands at the path its dotted key spells. |
| ConfigScenarios.PersonFromObject | test/test_configurable.cpp:22-26 | A person configured from a name and age object takes both over. |
| ConfigScenarios.DefaultApplied | test/test_configurable.cpp:40-50 | Without settings, the five parameters receive 10, 10, "default", "test_person" and Anna. |
| ConfigScenarios.DefaultsHoldScalars | test/test_configurable.cpp:77-79 | The active defaults hold 10 at x, 10 at y and "default" at str. |
| ConfigScenarios.DefaultConfiguration | test/test_configurable.cpp:70-79 | The default configuration gives x 10, y 10 and str "default", and the active configuration holds them. |
| ConfigScenarios.DefaultPerson | test/test_configurable.cpp:51-81 | The default embedded person is Anna, aged 25. |
| ConfigScenarios.UserDefinedConfiguration | test/test_configurable.cpp:107-118 | User settings for x, y and str override those three. The class name and the person keep their defaults. |
| ConfigScenarios.EmbeddedFromConfig | test/test_configurable.cpp:51-61 | The person is initialized from the object the active configuration holds under test_person. |
| ConfigScenarios.NestedPersonMerged | include/ConfigSystem.hh:216-220 | Merged over defaults holding Anna, a nested person object replaces her entirely. |
| ConfigScenarios.NestedPersonConfiguration | test/test_configurable.cpp:85-92 | With the person given as a nested object, the active configuration holds exactly that object. |
| ConfigScenarios.NestedPersonEmbedded | test/test_configurable.cpp:85-94 | With the person given as a nested object, the embedded person takes its name and age. |
| ConfigScenarios.DottedPersonProcessed | test/test_configurable.cpp:96-101 | The dotted keys "test_person.name" and "test_person.age" are processed into the nested person object. |
| ConfigScenarios.DottedPersonEmbedded | test/test_configurable.cpp:96-103 | Dotted keys configure everything exactly as the nested object does, so the person takes the given name and age. |
| CleanerConfig.ConfigureCleaner | src/ImageCleaner.cpp:15-21 | A cleaner is built exactly when initialization of its four parameters succeeds. Each of its fields is the value that parameter's setter received, and its neighbour minimum fits a C++ int. |
| CleanerConfig.ConfigureCleanerFields | include/ConfigSystem.hh:36-44 | For every user configuration, each cleaner field is the registered default when the processed settings leave its key alone, and the user's value read as the field's type when they set it to a plain value. |
| CleanerConfig.CleanerParamsWellFormed | src/ImageCleaner.cpp:15-21 | The four registered keys are distinct, plain, and have defaults of handled types. |
| CleanerConfig.ConfigureCleanerDefaults | test/test_image_processor.cpp:9-15 | Without a user configuration the cleaner gets picture 10, boundary 5, isolated pixels dropped and two neighbours. |
| CleanerConfig.ConfigureFromPlainObject | src/ImageCleaner.cpp:15-21 | A user object of plain members sets each parameter from its member, read as the parameter's type, or leaves the default. |
| CleanerConfig.DocumentPlain | src/ImageCleaner.cpp:5-13 | A document in get_default_config's shape has one plain member per parameter, each readable as that parameter's type. |
| CleanerConfig.DocumentChosen | src/ImageCleaner.cpp:5-21 | Read as the parameters' types, such a document's members are the numbers and the flag it holds. |
| CleanerConfig.ConfigureFromDocument | test/test_image_processor.cpp:16-44 | Any document in get_default_config's shape whose integers fit a C++ int configures the cleaner with exactly the values it holds. |
| CleanerConfig.DefaultConfigAgrees | src/ImageCleaner.cpp:5-21 | Configuring from get_default_config gives the same cleaner as no configuration. |
| CleanerConfig.ConfigureCleanerOverride | src/ImageCleaner.cpp:15-21 | Setting only picture_thresh overrides it, and the other parameters keep their defaults. |
| CleanerConfig.EditedDefaultsAreUserConfig | test/test_image_processor.cpp:34-38 | Overwriting all four members of get_default_config gives the user configuration of the tests. |
| CleanerConfig.ConfigureCleanerUserConfig | test/test_image_processor.cpp:16-44 | The tests' user configuration (30, 10, true, 3) configures the cleaner with exactly those values. |
| Rpolator.Csx | src/rpolator.c:226-229 | The Horner evaluation equals a + b r + c r^2 + d r^3. |
| Rpolator.FractionInUnit | src/rpolator.c:108-111 | The position of x between two bracketing nodes lies in [0, 1]. |
| Rpolator.Rpl | src/rpolator.c:108-111 | rpl is the fraction of the way from node j-1 to node j, or 0.5 when the two coincide, and lies in [0, 1]. |
| Rpolator.SearchStep | src/rpolator.c:98-119 | A missed probe moves the search towards the bracketing interval within the halved step, and uses up budget. |
| Rpolator.SearchBudget | src/rpolator.c:98 | A table of up to 2^28 points needs at most 29 probes. |
| Rpolator.Search | src/rpolator.c:98-120 | A located interval brackets x in the table's direction, and rpl is x's position in it. On a strictly ascending table of up to 2^28 points with x inside, the 30 probes always locate x. |
| Rpolator.Interp | src/rpolator.c:61-121 | Points at or beyond the first node get interval 1 with rpl 0, and points at or beyond the last get interval n-1 with rpl 1, in both directions. Inside the range a located interval brackets x with rpl as its fraction. |
| Rpolator.CheckAscending | src/rpolator.c:145-152 | The check passes exactly when the supporting points strictly ascend. |
| Rpolator.Widths | src/rpolator.c:165-166 | h[k] = x[k+1] - x[k], and all widths are positive on an ascending table. |
| Rpolator.SystemRhs | src/rpolator.c:167-175 | Every interior row k of the right-hand side is 3 (a[k+1] - a[k]) / h[k] - 3 (a[k] - a[k-1]) / h[k-1]. |
| Rpolator.ClampedRhsEnds | src/rpolator.c:172-175 | The clamped system's end rows carry the end slopes, both zero. |
| Rpolator.ForwardSweep | src/rpolator.c:176-191 | Each row is eliminated with pivot l[k] = 2 (h[k] + h[k-1]) - h[k-1] M[k-1], multiplier M[k] = h[k] / l[k] and reduced right-hand side z[k]. Pivots stay positive and multipliers stay in [0, 1/2]. |
| Rpolator.ClampedLastCurvature | src/rpolator.c:192-203 | The clamped c[n-1] solves the last row of the system. |
| Rpolator.BackSubstitution | src/rpolator.c:204-212 | c[k] = z[k] - M[k] c[k+1] for every k. Each interval's a, b, c, d are derived from its node values and end curvatures. |
| Rpolator.SetCubicParams | src/rpolator.c:137-222 | Fails exactly when n < 4 or the points do not strictly ascend. Otherwise there is one entry per point with the last zeroed. Each interval polynomial passes through both its nodes, neighbours join with equal slope and curvature, and the ends are natural or clamped as requested. |
| Rpolator.EliminationStep | src/rpolator.c:186-191 | One sweep step keeps the pivot positive and the multiplier in [0, 1/2]. |
| Rpolator.NaturalEndsHold | src/rpolator.c:180-203 | The natural spline has zero curvature at both ends. |
| Rpolator.ClampedEndsHold | src/rpolator.c:172-197 | The clamped spline has zero slope at both ends. |
| Rpolator.IntervalsInterpolate | src/rpolator.c:204-219 | Every interval polynomial starts at its left node's value and ends at its right node's value. |
| Rpolator.IntervalsJoinSmoothly | src/rpolator.c:186-209 | The solved curvatures make neighbouring polynomials meet with equal slope and curvature. |
| Rpolator.EquidistantInterval | src/rpolator.c:289-296 | The direct-access interval index lies in 1 .. n-1. |
| Rpolator.EquidistantBrackets | src/rpolator.c:289-296 | On an equidistant table the direct-access interval brackets xp. |
| Rpolator.BracketNodeValue | src/rpolator.c:298-309 | Evaluating a bracketing interval at a supporting point gives that point's tabulated value. |
| Rpolator.RpolCspline | src/rpolator.c:262-310 | Returns 0 for n < 4, no coefficients, or x[1] <= x[0]. Outside the table it returns 0 under clip and otherwise the nearer end's value. Inside, it evaluates some interval's polynomial, which brackets xp on an equidistant table (direct access) or a searchable one. At a supporting point the result is that point's value. |
| SplineAlgebra.RightEndValue | src/rpolator.c:213-219 | With the routine's b and d, the interval's cubic reaches a1 at its right end. |
| SplineAlgebra.RightEndCurvature | src/rpolator.c:213-219 | Half the second derivative at the right end is c1. |
| SplineAlgebra.RightEndSlope | src/rpolator.c:213-219 | The slope at the right end is (a1 - a0) / h + h (2 c1 + c0) / 3. |
| SplineAlgebra.SlopesJoin | src/rpolator.c:169-208 | When a row of the tridiagonal system holds, the slopes of the two adjacent intervals agree at their shared node. |
| SplineAlgebra.EliminationSolvesRow | src/rpolator.c:186-206 | Forward elimination followed by back substitution solves each interior row. |
| SplineAlgebra.PivotBounds | src/rpolator.c:188-189 | Pivots stay at least 2 h and multipliers stay in [0, 1/2]. |
| SplineAlgebra.ClampedLeftSlope | src/rpolator.c:172-175 | The clamped first row gives the first interval zero slope at the left end. |
| SplineAlgebra.ClampedRightSlope | src/rpolator.c:192-197 | The clamped last row gives the last interval zero slope at the right end. |

## Left out

- Floating point: doubles are exact reals. Rounding, NaN and infinities are not modelled, so the spline properties hold for the exact computation only.
- The `fprintf` diagnostics of interp and set_1d_cubic_params, and spdlog logging: output only.
- Rpolator.Interp: success of the 30-probe search is proved only for strictly ascending tables of at most 2^28 points. On descending tables, and when the search runs out, the contract states only the bounds and the "left untouched" outcome (`Exhausted`). The caller's output variables are then not modelled.
- Rpolator.RpolCspline: the guards after interp (`ipl < 1`, `ipl > n-1`) cannot fire, because interp's interval is always in 1 .. n-1. They are therefore not modelled as separate branches.
- Rpolator.ForwardSweep: the source computes the pivot as 2 (x[i+1] - x[i-1]) - h[i-1] M[i-1]. The model writes the same quantity as 2 (h[i] + h[i-1]) - h[i-1] M[i-1], which is equal in exact arithmetic.
- The `int` casts in rpol_cspline's direct access assume the quotient fits an int. The model uses unbounded floor.
- ConfigSystem.JsonToAny and ConfigSystem.Convert: nlohmann's narrowing of a JSON integer to a C++ int is modelled as a two's-complement wrap to 32 bits. The store's unsigned and floating-point JSON number variants are one `Int` and one `Double`.
- ConfigSystem.Convert: `get<int>` on a JSON float (include/ConfigSystem.hh:165) is a `static_cast` that is undefined behaviour when the truncated value does not fit an int. The model truncates toward zero and then wraps to 32 bits (`Wrap32(TruncateToInt(d))`).
- ConfigSystem.SetJsonValue and ConfigSystem.GetJsonValue: a path that splits into no pieces indexes an empty vector in the source (undefined behaviour). In getJsonValue the loop bound `parts.size() - 1` underflows and `parts.back()` is read from an empty vector (include/ConfigSystem.hh:149 and 160). The model reports the case as the error `EmptyPath`.
- JSON text parsing (`from_string`, `json::parse`) and `dump`: library code. User configurations are given as parsed `Json` values.
- Arrays are handled only as opaque JSON values. The store never navigates into them.
- ConfigSystem.Initialize: an exception becomes a `Failure` result and nothing else. The effects the source has already had before the throw are not modelled. By then userConfig has been overwritten with the processed document (include/ConfigSystem.hh:112), the setters of the parameters before the failing one have run (include/ConfigSystem.hh:92-97), and currentConfig keeps its earlier value.
- ConfigSystem.BuildDefaultConfig: the `params.clear(); registerParams();` that start buildDefaultConfig are abstracted into the parameter list the model is given. The component's registerParams is modelled by CleanerConfig.CleanerParams.
- registerParam's type dispatch through `std::any` and `typeid` becomes the `AnyValue` datatype. Types other than int, double, bool, string and json are the single `Unsupported` value.
- The setters that registerParam captures, and setUp, are reduced to the sequence of values the setters receive (`Configured.applied`).
- ConfigMacros.hh constructors are not part of this model.
- Camera geometry and the construction of the neighbour matrix are not part of this model. Adjacency is a given relation, and the 4 x 4 test camera is written out.
- ConfigProperties.InitializeOverridesDefaults: speaks only about parameters whose processed path is untouched or holds a plain value. A user object merged into an object-valued default is described by the MergePatch lemmas instead.
- ConfigProperties.ProcessPlacesMembers: requires members whose paths pairwise part ways. When one key's path is a prefix of another's (say "a" and "a.b"), the outcome depends on the key order, and only the failure-free cases are stated.
- ConfigProperties.ProcessPlainObject: requires keys without dots, non-null values and integers that fit a C++ int. Nulls disappear in processing and wider integers are wrapped, so the object would not come through unchanged.
- ConfigProperties.InitializeFromPlainObject: requires the same plain members and plain-key parameters. Dotted keys and nested defaults are covered by ProcessPlacesMembers and the embedded scenarios.
- ConfigScenarios.DottedPersonEmbedded: covers the test's particular keys. The general reordering by key order is covered by Paths.SortedKeysUnique.
- The other image-processing routines (Hillas, leakage, concentration and morphology parameters, dilate_image, cut_pixel_distance) are declared without bodies and are not part of this model.
