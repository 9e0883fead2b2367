# napari core logic in Dafny

This project models five pieces of napari, the Python n-dimensional image
viewer, and proves properties of them:

- **Vector data** (`vector_utils.dfy`, module `VectorUtils`). How the Vectors
  layer normalises its data to an (N, 2, D) list of start/projection pairs
  (`fix_data_vectors`). How an image-like array of per-pixel projections
  becomes such a list (`convert_image_to_coordinates`). How the
  line-segment mesh is built: its vertices and triangle indices
  (`generate_vector_meshes_2D`, `generate_vector_meshes`). Arrays are a
  shape plus a flat row-major sequence of reals. The in-place NumPy steps
  become methods over Dafny arrays, each proved against a specification
  function.
- **Colormaps** (`colormap.py` → `colormap.dfy`, module `Colormaps`). The
  control-point validator (default generation, end points, ordering,
  count), the display-name default of the constructor, iteration, and the
  bin lookup of `map` in `zero` interpolation mode.
- **Plugin reading and writing** (`plugins/io.py` → `plugin_io.dfy`, module
  `PluginIO`):
  - the null-layer sentinel;
  - `read_data_with_plugins`, with the npe2 short-circuit, the
    explicitly named plugin, and the first-success loop over reader hooks
    with its skip list and collected errors;
  - `save_layers`, dispatching on the number of layers;
  - the npe2 writer result normalisation;
  - the error paths of the multi-layer and single-layer writers.

  Plugin hooks, readers and writers are oracles, given as values that
  say what each call returns or that it raises.
- **Menus** (`_qt/menus/_util.py` → `menu_util.dfy`, module `MenuUtil`).
  `populate_menu` turns a list of action dictionaries into separators,
  submenus and actions. `NapariMenu` keeps a registry of instances,
  refreshes the enabled state of its actions, and cleans up.
- **Points mouse bindings** (`points_mouse_bindings.dfy`, module
  `PointsMouseBindings`). This is the press/move/release behaviour of a
  Points layer in `pan_zoom`, `add` and `select` modes, as
  `napari/layers/points/_tests/test_points_mouse_bindings.py` pins it
  down. There is one scenario method per test, whose postcondition is
  the test's assertion.

`wrappers.dfy` (module `Wrappers`) holds the `Option` and `Result` types
used for Python's `None` and for raised exceptions.

## Model

| member | source | states |
|---|---|---|
| VectorUtils.RavelUnravel | napari/layers/vectors/_vector_utils.py:36-38 | The row-major index of the multi-index at flat position k is k again (flatten and reshape agree). |
| VectorUtils.UnravelRavel | napari/layers/vectors/_vector_utils.py:36-38 | Every in-range multi-index is recovered from its row-major flat position. |
| VectorUtils.ProdXySwap | napari/layers/vectors/_vector_utils.py:28-29 | Swapping the first two axes (meshgrid's 'xy' indexing) keeps the number of grid points. |
| VectorUtils.GridStart | napari/layers/vectors/_vector_utils.py:28-37 | The start point of pixel k has one coordinate per pixel axis, each inside [0, Ni). |
| VectorUtils.ImageToCoordinates | napari/layers/vectors/_vector_utils.py:10-40 | An (N1..ND, D) image becomes a vector list of shape (N1·…·ND, 2, D). |
| VectorUtils.ImageToCoordinatesAt | napari/layers/vectors/_vector_utils.py:33-38 | Entry (k, r, i) of the result is the grid start (r = 0) or the pixel projection (r = 1). |
| VectorUtils.CoordEntryStart | napari/layers/vectors/_vector_utils.py:28-37 | Start component i of vector k is the meshgrid coordinate and lies in [0, Ni). |
| VectorUtils.CoordEntryProjection | napari/layers/vectors/_vector_utils.py:38 | Projection component i of vector k is the k-th pixel vector of the image in row-major order. |
| VectorUtils.ImageToCoordinatesStarts | napari/layers/vectors/_vector_utils.py:28-37 | Every start component of every vector lies in [0, Ni). |
| VectorUtils.ImageToCoordinatesProjections | napari/layers/vectors/_vector_utils.py:38 | Every projection row k is the k-th pixel's projection vector. |
| VectorUtils.ConvertImageToCoordinates | napari/layers/vectors/_vector_utils.py:10-40 | The freshly allocated (N, 2, D) array filled by the loops equals ImageToCoordinates entry by entry. |
| VectorUtils.SetStartColumn | napari/layers/vectors/_vector_utils.py:36-37 | Column (·, 0, i) receives the i-th meshgrid coordinate of every pixel; no other cell changes. |
| VectorUtils.SetProjections | napari/layers/vectors/_vector_utils.py:38 | The projection cells (·, 1, ·) receive the (-1, D) reshape of the image; the start points do not change. |
| VectorUtils.CoordEntriesAreImageToCoordinates | napari/layers/vectors/_vector_utils.py:36-38 | An array whose start cells hold the grid and whose projection cells hold the pixels is ImageToCoordinates, cell by cell. |
| VectorUtils.FixDataVectors | napari/layers/vectors/_vector_utils.py:125-191 | Any success is a rank-3 array with second dimension 2 whose third dimension is the returned ndim, and a supplied ndim is never overridden. |
| VectorUtils.FixDataVectorsEmpty | napari/layers/vectors/_vector_utils.py:155-165 | None or empty (non coordinate-like) input gives shape (0, 2, ndim), with ndim defaulting to 2. |
| VectorUtils.FixDataVectorsCoordinateLike | napari/layers/vectors/_vector_utils.py:159-161 | (N, 2, D) input comes back unchanged; a supplied ndim other than D is a dimension-mismatch error. |
| VectorUtils.FixDataVectorsImageBeforeSingle | napari/layers/vectors/_vector_utils.py:166-168 | An (N, 1) input is image-like and is converted to coordinates before the single-vector case is tried. |
| VectorUtils.FixDataVectorsImageLike | napari/layers/vectors/_vector_utils.py:166-191 | Any non-empty (N1, ..., ND, D) input that is not (N, 2, D) becomes ImageToCoordinates of it with ndim D; a supplied ndim other than D is a dimension-mismatch error. |
| VectorUtils.FixDataVectorsSingleVector | napari/layers/vectors/_vector_utils.py:169-180 | A rank-2 non-image input of shape (2, D) is lifted to (1, 2, D); any other rank-2 shape cannot be reshaped. |
| VectorUtils.FixDataVectorsRejects | napari/layers/vectors/_vector_utils.py:169-180 | A non-empty input of rank 1 or rank ≥ 3 that is neither coordinate-like nor image-like is a reshape error naming its shape. |
| VectorUtils.FixDataVectorsScalar | napari/layers/vectors/_vector_utils.py:166 | A 0-d array fails at `shape[-1]`. |
| VectorUtils.Triangles | napari/layers/vectors/_vector_utils.py:113-120 | One triangle per row of the (2N, D) array; TrianglesSpec gives their index pattern. |
| VectorUtils.TrianglesSpec | napari/layers/vectors/_vector_utils.py:113-120 | There are 2N triangles; triangle 2k is (4k, 4k+1, 4k+2), triangle 2k+1 is (4k+1, 4k+2, 4k+3); every index is below 4N. |
| VectorUtils.ShiftBelow | napari/layers/vectors/_vector_utils.py:74 | Shifting indices below b by an offset gives indices below b plus the offset. |
| VectorUtils.EndpointsOfSegment | napari/layers/vectors/_vector_utils.py:103 | After the end-point step the start row is kept and the odd row is start + length · projection. |
| VectorUtils.VertexPairsAverage | napari/layers/vectors/_vector_utils.py:105-112 | Vertices 4k, 4k+1 are symmetric about the start and 4k+2, 4k+3 about the end of segment k (signs −1/+1). |
| VectorUtils.VertexOfSegment | napari/layers/vectors/_vector_utils.py:105-112 | Vertex 4k + j lies on row 2k + j/2, offset by half the width times segment k's normal, backwards for even j. |
| VectorUtils.MeshOfRows | napari/layers/vectors/_vector_utils.py:102-112 | Over any even list of rows, the mesh vertices' pair midpoints are the segment's start and end. |
| VectorUtils.MeshVertices2DSpec | napari/layers/vectors/_vector_utils.py:101-112 | For N vectors there are 4N vertices; each vertex pair of vector k is centred on its start, or on start + length · projection. |
| VectorUtils.EndRow | napari/layers/vectors/_vector_utils.py:103 | Row m becomes row m − 1 plus length times row m; every other cell is unchanged. |
| VectorUtils.SegmentEndsInPlace | napari/layers/vectors/_vector_utils.py:103 | The in-place update of the (2N, D) array equals Endpoints of its old rows. |
| VectorUtils.RowsAreEndpoints | napari/layers/vectors/_vector_utils.py:103 | Cell-wise end-point values make the array's rows equal to Endpoints. |
| VectorUtils.Reshape | napari/layers/vectors/_vector_utils.py:101-102 | The (N, 2, D) data copied into a fresh (2N, D) array gives the row-major reshape. |
| VectorUtils.RowsAreReshaped | napari/layers/vectors/_vector_utils.py:102 | Cell-wise reshaped values make the array's rows equal to Reshaped. |
| VectorUtils.GenerateVectorMeshes2D | napari/layers/vectors/_vector_utils.py:79-122 | Returns the specified vertices and the triangle list for 2N rows. |
| VectorUtils.GenerateVectorMeshes | napari/layers/vectors/_vector_utils.py:43-76 | D = 2 gives one mesh; otherwise the meshes for p = (0,0,1) and p = (1,0,0) are concatenated, with the second batch's triangle indices shifted by the first batch's vertex count. That gives 4N or 8N vertices, and every index is below the vertex count. |
| Colormaps.CheckControls | napari/utils/colormaps/colormap.py:68-108 | Missing or empty controls always succeed; accepted controls come back unchanged; any success has len(colors) controls, plus one in zero mode. |
| Colormaps.CheckControlsAccepts | napari/utils/colormaps/colormap.py:77-108 | Given controls are accepted iff they start at 0, end at 1, are sorted and have the right count. Bad end points are reported first, then ordering. |
| Colormaps.SingleControlRejected | napari/utils/colormaps/colormap.py:77-84 | A single control point is always rejected (it cannot be both 0 and 1). |
| Colormaps.LinspaceSpec | napari/utils/colormaps/colormap.py:71-75 | The default controls run from 0 to 1 in equal steps and are sorted. |
| Colormaps.CheckControlsIdempotent | napari/utils/colormaps/colormap.py:68-108 | Validating the validator's own output again accepts it unchanged (for counts other than one). |
| Colormaps.CheckControlsIdempotentOnCount | napari/utils/colormaps/colormap.py:68-108 | The same, stated for any count: if the count is not one, re-validation accepts the output. |
| Colormaps.SearchSortedLeft | napari/utils/colormaps/colormap.py:125 | `np.searchsorted` (left) returns an insertion point in [0, len(controls)]; SearchSortedLeftSpec gives its meaning on sorted controls. |
| Colormaps.SearchSortedLeftSpec | napari/utils/colormaps/colormap.py:125 | On sorted controls, `searchsorted` (left) returns the index that splits them into those below x and those at or above x. |
| Colormaps.SearchSortedLeftUnique | napari/utils/colormaps/colormap.py:125 | That split index is unique. |
| Colormaps.Clip | napari/utils/colormaps/colormap.py:124-126 | `np.clip` saturates: values below lo become lo, values above hi become hi, and in-range values are unchanged. |
| Colormaps.AtLeast1D | napari/utils/colormaps/colormap.py:114 | Definition of `np.atleast_1d` on the inputs `map` takes: a scalar becomes a one-element array, an array is kept. |
| Colormaps.MapZeroAsWritten | napari/utils/colormaps/colormap.py:122-127 | The zero branch as written: the lookup fails iff some clipped index reaches len(colors); otherwise there is one colour per value. |
| Colormaps.MapZeroAsWrittenFailsAboveOne | napari/utils/colormaps/colormap.py:124-127 | With valid controls, any value above 1 yields index len(colors) and the lookup fails. |
| Colormaps.MapZeroAsWrittenCounterexample | napari/utils/colormaps/colormap.py:124-127 | Two colours, controls [0, 0.5, 1], value 1.5: index 2 is out of bounds for 2 colours. |
| Colormaps.ZeroIndex | napari/utils/colormaps/colormap.py:124-126 | The corrected bin index always names a colour. |
| Colormaps.MapZero | napari/utils/colormaps/colormap.py:122-127 | The corrected lookup gives one colour per value, the colour of that value's bin. |
| Colormaps.ZeroIndexBins | napari/utils/colormaps/colormap.py:122-126 | Values at or below the first control get colour 0. A value in (c_k, c_k+1] gets colour k. Values above 1 get the last colour. |
| Colormaps.ZeroIndexAgreesUpToOne | napari/utils/colormaps/colormap.py:124-126 | For values up to 1 the as-written and corrected indices agree and are in range. |
| Colormaps.MapZeroAgreesOnUnitRange | napari/utils/colormaps/colormap.py:122-127 | For values up to 1 the as-written lookup succeeds with the corrected colours. |
| Colormaps.NewColormap | napari/utils/colormaps/colormap.py:50-75 | Fails iff the controls validator fails. Otherwise it keeps colours and interpolation, the name defaults to 'custom', the display name defaults to the name, and the controls are valid except in the single-control case. |
| Colormaps.IterRoundTrip | napari/utils/colormaps/colormap.py:110-111 | Rebuilding a valid colormap from what iteration yields (colors, controls, interpolation) and its name gives it back, with the display name set to the name. |
| PluginIO.OrNone | napari/plugins/io.py:121 | `layer_data or None` is the data exactly when it is truthy. |
| PluginIO.NullLayerSentinelIsLiteral | napari/plugins/io.py:262-282 | The structural sentinel test holds exactly for `[(None,)]`. |
| PluginIO.SentinelToEmpty | napari/plugins/io.py:83 | Definition of the conditional expression: the sentinel becomes the empty list, everything else is kept. |
| PluginIO.Fallback | napari/plugins/io.py:123-145 | The fallback loop as a function: data returned with a plugin is truthy. The Fallback lemmas below state the rest. |
| PluginIO.FirstResult | napari/plugins/io.py:126-133 | The hook caller's first result skips skipped implementations and those returning None, and is the first other one. |
| PluginIO.FallbackStopsAtFirstData | napari/plugins/io.py:126-145 | If every earlier implementation passes and reader j returns truthy data, the loop returns that data with j's plugin. |
| PluginIO.FallbackFailsOnlyOnRaise | napari/plugins/io.py:126-133 | The loop fails only when a napari_get_reader implementation raises, and then with that implementation's error. |
| PluginIO.FallbackCollectsErrors | napari/plugins/io.py:134-143 | Reader failures are collected, not raised: earlier errors are kept, and each one added names an implementation whose reader was not callable or raised. |
| PluginIO.FallbackDataSource | napari/plugins/io.py:134-138 | A plugin returned with the data is one whose reader returned exactly that truthy data. |
| PluginIO.FirstResultFromScan | napari/plugins/io.py:124-145 | When every skipped index is before i and every other index before i returns None, the first result with that skip list is the first one from i on. |
| PluginIO.FallbackSkipsNone | napari/plugins/io.py:126-133 | Implementations returning no reader do not change the loop's outcome. |
| PluginIO.ReadFallbackLoop | napari/plugins/io.py:123-145 | The `while True` loop returns the specified outcome and errors; its skip list is strictly increasing and names only implementations that passed. |
| PluginIO.ChoosePlugin | napari/plugins/io.py:87-89 | Definition of the plugin choice: a non-empty plugin name wins; otherwise a single path uses the extension's registered reader. |
| PluginIO.FindImpl | napari/plugins/io.py:114 | The implementation found for a name carries it; none is found only if no implementation has it. |
| PluginIO.ReadWithPlugin | napari/plugins/io.py:92-121 | An unregistered name is an error naming it; success reports the named plugin. |
| PluginIO.ReadDataSpec | napari/plugins/io.py:41-177 | read_data_with_plugins as a function: the null-layer sentinel is never returned as data (it becomes `[]`). |
| PluginIO.ReadDataWithPlugins | napari/plugins/io.py:23-177 | The method returns ReadDataSpec's result (npe2 first, then a named plugin, then the fallback loop) and, on the loop path, the loop's errors. An exception other than ValueError out of npe2 propagates. |
| PluginIO.ReadNpe2ShortCircuits | napari/plugins/io.py:80-83 | A successful npe2 read is returned at once, the sentinel mapped to `[]`. |
| PluginIO.ReadWithPluginResult | napari/plugins/io.py:114-121 | The named plugin's data is returned: the sentinel as `[]`, falsy data as None, truthy data as is. |
| PluginIO.FindImplFirst | napari/plugins/io.py:114 | The implementation found is the first one with that name. |
| PluginIO.ReadWithPluginNotSupported | napari/plugins/io.py:103-112 | A named plugin whose hook gives no callable reader raises "does not support file". |
| PluginIO.ReadFallbackResult | napari/plugins/io.py:147-177 | The loop path never returns falsy data (except the sentinel as `[]`); a loop ending without truthy data raises "No plugin found" for the path. |
| PluginIO.NormalizeWriteResult | napari/plugins/io.py:329 | Definition of the result expression: a string becomes a one-element list, a list is kept, None becomes `[]`. |
| PluginIO.WriterCallArgs | napari/plugins/io.py:326-327 | Definition of the argument choice: a writer whose layer-type maxima sum to at most 1 gets (path, data, meta) of the first layer (an empty list raises); otherwise it gets (path, all layers). |
| PluginIO.WriteLayersWithNpe2 | napari/plugins/io.py:314-329 | Without npe2 the result is `[]`. Without a chosen writer it is what npe2.write returns, and its exception propagates. Otherwise it is the normalised result of calling the writer with the arguments its constraints select; the writer's exception, or indexing an empty layer list, propagates. |
| PluginIO.FirstWriter | napari/plugins/io.py:406-411 | The first implementation that does not return None decides: its writer and its plugin's name are returned, or, if it raised, its error. None is found iff every implementation returns None. |
| PluginIO.FindWriterImpl | napari/plugins/io.py:402 | The implementation found for a name is the first one carrying it; none is found only if no implementation has it. |
| PluginIO.WriteMultiple | napari/plugins/io.py:373-376 | A non-empty npe2 result is returned without consulting the plugin engine. |
| PluginIO.WriteMultipleErrors | napari/plugins/io.py:374-433 | When npe2 is absent or writes nothing, with a named writer plugin: an unregistered name raises "no registered plugin". A non-callable or absent writer raises "not capable", naming the plugin. A writer that raises becomes a plugin call error. |
| PluginIO.WriteMultipleFirstWriter | napari/plugins/io.py:374-433 | When npe2 is absent or writes nothing, with no plugin named or registered for the extension: no writer at all raises "Unable to find plugin". The first writer's paths are returned, and its exception becomes a plugin call error. |
| PluginIO.CallSingleWriter | napari/plugins/io.py:504-509 | With a named plugin: an error iff no implementation has that name, otherwise the first such implementation's result (None, its path, or its error). Without: None iff every implementation writes nothing, otherwise the result of the first one that writes a path or raises. |
| PluginIO.WriteSingle | napari/plugins/io.py:475-509 | An npe2 failure propagates and a non-empty npe2 result gives its first path. Otherwise a layer type without a napari_write_<layer type> hook raises AttributeError first; then a named, unregistered plugin raises "no registered plugin"; any other case returns the hook call for the named plugin, or for none. |
| PluginIO.SaveLayers | napari/plugins/io.py:234-259 | No layers write nothing. Several layers go to the multi-layer writer. One layer goes to the single-layer writer, its path wrapped in a list when truthy. A warning is issued exactly when nothing was written. |
| MenuUtil.Populate | napari/_qt/menus/_util.py:73-105 | populate_menu as a function: the actions it adds, at most one per entry, and whether it returned normally. The Populate lemmas below state the rest. |
| MenuUtil.ItemAction | napari/_qt/menus/_util.py:88-105 | An action has its dictionary's text, slot, shortcut and status tip (both default ''), and its menu role only when given. It is checkable iff "checkable" is truthy, checked only then (default False), and connected to "check_on" exactly when it is checkable. Its data is the dictionary itself. |
| MenuUtil.PopulateConcat | napari/_qt/menus/_util.py:73-105 | Entries are handled in list order: populating with a + b is populating with a and then, unless that raised, with b. |
| MenuUtil.PopulateOne | napari/_qt/menus/_util.py:73-105 | An empty entry gives a separator and a "when"-false entry nothing. A "menu" entry gives a submenu populated from its "items". An entry without "text" raises KeyError. Any other entry gives its action. |
| MenuUtil.PopulateWellFormed | napari/_qt/menus/_util.py:73-105 | Lists whose shown entries all have "menu" or "text", at every depth, never raise and add one action per empty or shown entry. |
| MenuUtil.PopulateCarriesData | napari/_qt/menus/_util.py:105 | Every action added carries, as its data, one of the entries, and its text is that entry's text. |
| MenuUtil.PopulateMenu | napari/_qt/menus/_util.py:73-105 | The loop, with its recursive calls on new submenus, appends exactly Populate's actions to the menu and reports KeyError where Populate does. |
| MenuUtil.RemoveFirst | napari/_qt/menus/_util.py:150-151 | `list.remove` drops the first occurrence of x: the elements before it are kept, the ones after it move down by one in order, and the multiset loses one copy of x. |
| MenuUtil.IndexOf | napari/_qt/menus/_util.py:150-151 | The first occurrence of x: x is there and nowhere before. |
| MenuUtil.Refresh | napari/_qt/menus/_util.py:153-159 | An action with dictionary data is enabled iff its "enabled" predicate holds for the event (always when there is none). Nothing else changes, and actions without data are untouched. |
| MenuUtil.RefreshIdempotent | napari/_qt/menus/_util.py:153-159 | Refreshing twice for the same event is refreshing once. |
| MenuUtil.ClearData | napari/_qt/menus/_util.py:142-143 | Clean-up sets an action's data to None and changes nothing else. |
| MenuUtil.ClearedIgnoresRefresh | napari/_qt/menus/_util.py:142-159 | After clean-up, `update` leaves the action alone. |
| MenuUtil.Emitted | napari/_qt/menus/_util.py:98-103 | Firing a "check_on" emitter sets the check state of exactly the actions connected to it, at any depth, and nothing else. |
| MenuUtil.MenuRegistry.constructor | napari/_qt/menus/_util.py:134 | The registry starts empty. |
| MenuUtil.Menu.Plain | napari/_qt/menus/_util.py:83-85 | A submenu created by title starts empty and is not registered. |
| MenuUtil.Menu.constructor | napari/_qt/menus/_util.py:136-138 | A new napari menu is empty and is appended to the registry. |
| MenuUtil.Menu.Update | napari/_qt/menus/_util.py:153-159 | Every action of the menu becomes its Refresh for the event; the count is unchanged. |
| MenuUtil.Menu.Destroy | napari/_qt/menus/_util.py:140-151 | Every action's data is cleared. The menu's first registry entry is removed if it is present, and the registry is untouched otherwise. |
| MenuUtil.Menu.Emit | napari/_qt/menus/_util.py:98-103 | The menu's actions become their Emitted versions. |
| PointsMouseBindings.HitTest | napari/layers/points/_tests/test_points_mouse_bindings.py:199-243 | The point under the cursor, if any, is the last one within half a point size. None means no point is. |
| PointsMouseBindings.BoxSelect | napari/layers/points/_tests/test_points_mouse_bindings.py:496-557 | A drag box selects exactly the points inside it. |
| PointsMouseBindings.BoxSelectAllOrNone | napari/layers/points/_tests/test_points_mouse_bindings.py:496-557 | A box spanning every point selects all of them; a box spanning none selects nothing. |
| PointsMouseBindings.HitWhenApart | napari/layers/points/_tests/test_points_mouse_bindings.py:199-243 | A click on a point hits it when the other points are apart from it. |
| PointsMouseBindings.MissWhenApart | napari/layers/points/_tests/test_points_mouse_bindings.py:450-493 | A click away from every point hits nothing. |
| PointsMouseBindings.Toggle | napari/layers/points/_tests/test_points_mouse_bindings.py:246-305 | Shift-click flips the clicked index's membership and keeps every other index. The size grows or shrinks by one. |
| PointsMouseBindings.ToggleTwice | napari/layers/points/_tests/test_points_mouse_bindings.py:246-305 | Shift-clicking the same point twice restores the selection. |
| PointsMouseBindings.PointsLayer.constructor | napari/layers/points/_tests/test_points_mouse_bindings.py:43-51 | A new layer holds the given points with nothing selected. |
| PointsMouseBindings.PointsLayer.SetMode | napari/layers/points/_tests/test_points_mouse_bindings.py:337-376 | Changing mode abandons any gesture and keeps the data and selection. |
| PointsMouseBindings.PointsLayer.SetSelected | napari/layers/points/_tests/test_points_mouse_bindings.py:253 | Assigning the selection sets it. |
| PointsMouseBindings.PointsLayer.Press | napari/layers/points/_tests/test_points_mouse_bindings.py:199-334 | Pan/zoom changes nothing and add starts a gesture. In select mode, a plain press on an unselected point i selects exactly {i} and one on a selected point keeps the selection, a shift press toggles i, and a press on empty space clears the selection. |
| PointsMouseBindings.PointsLayer.Move | napari/layers/points/_tests/test_points_mouse_bindings.py:175-183 | A dragging move records where the drag went. |
| PointsMouseBindings.PointsLayer.Release | napari/layers/points/_tests/test_points_mouse_bindings.py:109-196 | Pan/zoom changes nothing. In add mode, an undragged press appends the release position as the last point and a drag adds nothing. In select mode, a drag from empty space selects exactly the boxed points. |
| PointsMouseBindings.Click | napari/layers/points/_tests/test_points_mouse_bindings.py:91-158 | Press and release together: the net effect of a click in each mode. |
| PointsMouseBindings.Known2D | napari/layers/points/_tests/test_points_mouse_bindings.py:29-53 | The 2-D fixture: four points, size 1, nothing selected. |
| PointsMouseBindings.Known3D | napari/layers/points/_tests/test_points_mouse_bindings.py:56-88 | The 3-D fixture: four points, size 1, nothing selected. |
| PointsMouseBindings.Geometry | napari/layers/points/_tests/test_points_mouse_bindings.py:43-47 | The hit and box rules the scenarios use are HitTest and BoxSelect over the layer's points. |
| PointsMouseBindings.PanZoomClick | napari/layers/points/_tests/test_points_mouse_bindings.py:91-106 | In pan/zoom mode, even after add or select, a click on a point keeps 4 points and an empty selection. |
| PointsMouseBindings.AddPoint | napari/layers/points/_tests/test_points_mouse_bindings.py:109-130 | A click on empty space in add mode gives 5 points, the last at the click. |
| PointsMouseBindings.AddPoint3D | napari/layers/points/_tests/test_points_mouse_bindings.py:133-158 | The same in 3-D. |
| PointsMouseBindings.DragInAddMode | napari/layers/points/_tests/test_points_mouse_bindings.py:161-196 | Press, drag and release in add mode keeps 4 points. |
| PointsMouseBindings.ClickOnPoint | napari/layers/points/_tests/test_points_mouse_bindings.py:379-447 | A plain click on an unselected point i selects exactly {i}, and on a selected point keeps the selection; a shift-click toggles i in any prior selection. |
| PointsMouseBindings.ClickOnPoint3D | napari/layers/points/_tests/test_points_mouse_bindings.py:219-305 | The same in 3-D. |
| PointsMouseBindings.ClickOnEmpty | napari/layers/points/_tests/test_points_mouse_bindings.py:450-493 | A click on empty space in select mode leaves nothing selected, whatever was selected. |
| PointsMouseBindings.ClickOnEmpty3D | napari/layers/points/_tests/test_points_mouse_bindings.py:308-334 | The same in 3-D. |
| PointsMouseBindings.DragSelect | napari/layers/points/_tests/test_points_mouse_bindings.py:496-557 | Press on empty space, drag, release: the selection is the box's points. |
| PointsMouseBindings.DragBoxAll | napari/layers/points/_tests/test_points_mouse_bindings.py:496-523 | The box from (20, 30) to (0, 0) selects all four points. |
| PointsMouseBindings.DragBoxNone | napari/layers/points/_tests/test_points_mouse_bindings.py:526-557 | The box from (20, 30) to (50, 60) selects none. |
| PointsMouseBindings.KnownBoxes | napari/layers/points/_tests/test_points_mouse_bindings.py:496-557 | The two test boxes over the 2-D fixture hold all points and no point respectively. |

## Left out

- Floating point: coordinates are stored as `float32` in `convert_image_to_coordinates` and triangle indices are cast to `uint32`. Colormap colours and controls are float arrays, and the default controls come from `np.linspace`. The model uses exact reals and unbounded naturals for all of them.
- `segment_normal` (its module is not part of this model) is a function parameter. It is only required to return a vector of the segment's dimension, so the vertex offsets are stated only through the vertex pairs' midpoints.
- `np.asarray` conversion of arbitrary Python objects (ragged or non-numeric lists) is not modelled. `fix_data_vectors` receives a well-formed array or None.
- Error messages are modelled as error constructors carrying their parameters, not as translated strings.
- `Colormap.map` LINEAR branch (`np.interp`): floating-point interpolation, not modelled. Values of rank above 1 are not modelled either: `map` takes a scalar or a 1-D array.
- `transform_color` (the colours validator), the `colorbar` property and pydantic's event machinery are not part of this model. Colours are taken as given.
- The "Unrecognized Colormap Interpolation Mode" branch cannot occur: the interpolation type has exactly two values.
- NewColormap: the controls are valid (re-validation accepts them) only when more than one control is expected. With one colour in linear mode the default controls are `[0.0]`, which the end-point check would reject.
- CheckControlsIdempotent: requires that the expected count is not one, for the same reason.
- `_read_with_npe2`, `npe2.write`, `writer.exec`, `hook_caller._call_plugin`, `call_with_result_obj` and `get_reader_for_extension` / `get_writer_for_extension` are oracles. They are fields of the read and write environments: what each returns, or that it raises. npe2's declining (ImportError or ValueError) and its other exceptions are one constructor each; the exception's type and message are not modelled.
- The logging of collected reader errors (napari/plugins/io.py:167-172) and `warnings.warn` in `save_layers` are not modelled as I/O. The errors are returned as a list of plugin names, and the warning as a flag.
- `abspath_or_url` path normalisation and `layer.as_layer_data_tuple()` are not modelled. Paths and layer tuples are taken as given.
- `populate_qmenu_from_manifest` is not modelled: it only walks the npe2 plugin manager's menu contributions, an external registry.
- Menus: a ready-made `QMenu` given as "menu" is modelled by its title. The identity and re-parenting of that object are not modelled.
- Menus: the optional `ax._destroy()` call on each action during clean-up is not modelled: it depends on attributes of Qt objects outside this code.
- Menus: a dictionary whose only key is "items" with an empty list is treated like an empty dictionary (a separator). A missing "items" and an empty one are not distinguished.
- Menus: slots, "enabled" predicates and "check_on" emitters are represented by identifiers. Evaluating a predicate on an event is a function parameter. An emitted event is reduced to its boolean value.
- Points: the Points layer implementation (napari/layers/points/points.py and its mouse bindings) is not part of this model. The behaviour modelled is what the tests assert. Which point is under the cursor, and which points a drag box holds, are inputs. The scenarios compute them with the geometric rule given in the module comment, which ignores 3-D ray casting (`view_direction`, `dims_displayed`).
- Points: a plain press on a point that is already selected is not pinned by any test. The model keeps the selection, as napari's select binding does so that the selection can be dragged together; that binding is not part of this model.
- Points: the selection after adding a point is not pinned by the tests, which check only the point count and the last point. The model leaves the selection unchanged.
- Points: in add mode any dragging move between press and release cancels the new point. A drag-distance threshold, if the binding has one, is not modelled; the tests show only one drag, from (20, 30) to (40, 60), released at canvas position (4, 4).
- Points: moving selected points by dragging, the shift modifier on empty-space presses and drag boxes, highlighting and the status bar are not modelled. The tests do not exercise them.

## Findings

| source | as written | input that shows it | evidently intended | confidence | as-written member | corrected member |
|---|---|---|---|---|---|---|
| napari/utils/colormaps/colormap.py:124-127 | In zero mode the bin index `searchsorted(controls, values) - 1` is clipped to `[0, len(colors)]`. A value above the last control (1.0) gets index `len(colors)`, one past the last colour, and `self.colors[indices]` raises IndexError. | Two colours, controls `[0, 0.5, 1]`, `map(1.5)` gives index 2 for 2 colours. | Clip to `len(colors) - 1`, so values above 1 take the last colour, as values below 0 take the first. | not executed | Colormaps.MapZeroAsWritten | Colormaps.MapZero |
