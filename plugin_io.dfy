/** Reading and writing layers through plugins, after napari/plugins/io.py. The plugin
    engines (npe2 and the hook callers of napari_plugin_engine) are not part of this
    model: what they would return for the call in question is passed in as data. */
module PluginIO {
  import opened Wrappers

  // ---------------------------------------------------------------------------
  // Python values as far as reading and writing inspect them

  /** A value returned by a reader: `None`, a list, a tuple, a string, or any other
      object, whose truth value is all that matters. */
  datatype PyValue =
    | PyNone
    | PyList(items: seq<PyValue>)
    | PyTuple(items: seq<PyValue>)
    | PyStr(s: string)
    | PyObject(id: nat, truthy: bool)

  /** Python truth: `None`, empty containers and empty strings are false. */
  predicate Truthy(v: PyValue) {
    match v
    case PyNone => false
    case PyList(items) => |items| > 0
    case PyTuple(items) => |items| > 0
    case PyStr(s) => |s| > 0
    case PyObject(_, t) => t
  }

  /** `layer_data or None`. */
  function OrNone(v: PyValue): (r: Option<PyValue>)
    ensures r.Some? <==> Truthy(v)
    ensures r.Some? ==> r.value == v
  {
    if Truthy(v) then Some(v) else None
  }

  /** _is_null_layer_sentinel: a list of one element that is a 1-tuple holding None. */
  predicate IsNullLayerSentinel(v: PyValue) {
    && v.PyList?
    && |v.items| == 1
    && v.items[0].PyTuple?
    && |v.items[0].items| == 1
    && v.items[0].items[0].PyNone?
  }

  /** The structural test recognises exactly the value `[(None,)]`. */
  lemma NullLayerSentinelIsLiteral(v: PyValue)
    ensures IsNullLayerSentinel(v) <==> v == PyList([PyTuple([PyNone])])
  {
    if IsNullLayerSentinel(v) {
      assert v.items == [v.items[0]] && v.items[0].items == [PyNone];
    }
  }

  /** An empty reader result: the sentinel read as `[]`. */
  const EmptyLayerList: PyValue := PyList([])

  /** `[] if _is_null_layer_sentinel(data) else data`. */
  function SentinelToEmpty(v: PyValue): (r: PyValue)
    ensures IsNullLayerSentinel(v) ==> r == EmptyLayerList
    ensures !IsNullLayerSentinel(v) ==> r == v
  {
    if IsNullLayerSentinel(v) then EmptyLayerList else v
  }

  // ---------------------------------------------------------------------------
  // Reader hook implementations

  /** What calling a reader function on the path does. */
  datatype ReadOutcome = Returns(data: PyValue) | ReadRaises

  /** What a napari_get_reader implementation returns: a callable reader, or some other
      non-None value, of which only its truth value matters. */
  datatype ReaderFn = Callable(onRead: ReadOutcome) | NotCallable(truthy: bool)

  /** What a napari_get_reader implementation does for the path. */
  datatype GetReader = ReturnsNone | GetReaderRaises | ReturnsReader(reader: ReaderFn)

  /** One napari_get_reader implementation, in the order the hook caller calls them. */
  datatype HookImpl = HookImpl(pluginName: string, getReader: GetReader)

  datatype Path = Single(p: string) | Stack(ps: seq<string>)

  datatype ReadError =
    | NoRegisteredPlugin(plugin: string)   // "There is no registered plugin named ..."
    | NoImplementation(plugin: string)     // the engine's _call_plugin finds no implementation
    | NotSupported(plugin: string)         // "Plugin ... does not support file ..."
    | PluginCallError(plugin: string)      // an exception raised out of a hook or reader call
    | NoReaderFound(path: Path)            // "No plugin found capable of reading ..."
    | Npe2ReadError                        // an exception other than ValueError out of npe2

  /** What `_read_with_npe2` does with the path: npe2 is not installed or raises
      ValueError (both read as None), npe2 reads the path with some reader plugin, or npe2
      raises any other exception, which nothing catches. */
  datatype Npe2Read = Npe2Declines | Npe2Reads(data: PyValue, reader: string) | Npe2Raises

  /** The environment a read runs in: the npe2 outcome, the registered plugin names, the
      plugin registered for the path's extension, and the napari_get_reader
      implementations in call order. */
  datatype ReadEnv = ReadEnv(
    npe2: Npe2Read,
    registered: set<string>,
    extensionPlugin: Option<string>,
    impls: seq<HookImpl>)

  /** `hook_caller.call_with_result_obj(_skip_impls=skip)`: the first implementation, at or
      after i and not skipped, that does not return None (firstresult), or None when
      every one does. */
  function FirstResult(impls: seq<HookImpl>, skip: seq<nat>, i: nat): (r: Option<nat>)
    decreases |impls| - i
    ensures r.Some? ==> i <= r.value < |impls| && r.value !in skip && impls[r.value].getReader != ReturnsNone
    ensures r.Some? ==> forall j :: i <= j < r.value && j !in skip ==> impls[j].getReader == ReturnsNone
    ensures r.None? ==> forall j :: i <= j < |impls| && j !in skip ==> impls[j].getReader == ReturnsNone
  {
    if i >= |impls| then None
    else if i !in skip && impls[i].getReader != ReturnsNone then Some(i)
    else FirstResult(impls, skip, i + 1)
  }

  /** The fallback loop of read_data_with_plugins, stated from implementation i on with
      the data and errors gathered so far: the final layer data, the implementation that
      produced it, and the names of the plugins whose reader failed. */
  function Fallback(impls: seq<HookImpl>, i: nat, layerData: PyValue, errors: seq<string>)
    : (r: (Result<(PyValue, Option<string>), ReadError>, seq<string>))
    decreases |impls| - i
    ensures r.0.Ok? && r.0.value.1.Some? ==> Truthy(r.0.value.0)
  {
    if i >= |impls| then (Ok((layerData, None)), errors)
    else
      var name := impls[i].pluginName;
      match impls[i].getReader
      case ReturnsNone => Fallback(impls, i + 1, layerData, errors)
      case GetReaderRaises => (Err(PluginCallError(name)), errors)
      case ReturnsReader(NotCallable(t)) =>
        if !t then (Ok((layerData, None)), errors)
        else Fallback(impls, i + 1, layerData, errors + [name])
      case ReturnsReader(Callable(ReadRaises)) => Fallback(impls, i + 1, layerData, errors + [name])
      case ReturnsReader(Callable(Returns(d))) =>
        if Truthy(d) then (Ok((d, Some(name))), errors)
        else Fallback(impls, i + 1, d, errors)
  }

  /** A reader that fails or yields nothing. */
  predicate Passes(impl: HookImpl) {
    match impl.getReader
    case ReturnsNone => true
    case GetReaderRaises => false
    case ReturnsReader(NotCallable(t)) => t
    case ReturnsReader(Callable(ReadRaises)) => true
    case ReturnsReader(Callable(Returns(d))) => !Truthy(d)
  }

  /** The loop stops at the first truthy data: when every implementation before j only
      passes and j's reader returns truthy data, that data and j's plugin are the result. */
  lemma {:induction false} FallbackStopsAtFirstData(impls: seq<HookImpl>, i: nat, layerData: PyValue, errors: seq<string>, j: nat, d: PyValue)
    requires i <= j < |impls| && impls[j].getReader == ReturnsReader(Callable(Returns(d))) && Truthy(d)
    requires forall k :: i <= k < j ==> Passes(impls[k])
    ensures Fallback(impls, i, layerData, errors).0 == Ok((d, Some(impls[j].pluginName)))
    decreases j - i
  {
    if i < j {
      assert Passes(impls[i]);
      match impls[i].getReader
      case ReturnsNone => FallbackStopsAtFirstData(impls, i + 1, layerData, errors, j, d);
      case ReturnsReader(NotCallable(t)) => FallbackStopsAtFirstData(impls, i + 1, layerData, errors + [impls[i].pluginName], j, d);
      case ReturnsReader(Callable(ReadRaises)) => FallbackStopsAtFirstData(impls, i + 1, layerData, errors + [impls[i].pluginName], j, d);
      case ReturnsReader(Callable(Returns(e))) => FallbackStopsAtFirstData(impls, i + 1, e, errors, j, d);
    }
  }

  /** A reader that was offered the path and failed: not callable, or raising when called. */
  predicate ReaderFailed(impl: HookImpl) {
    impl.getReader.ReturnsReader? &&
    (impl.getReader.reader.NotCallable? || impl.getReader.reader.onRead.ReadRaises?)
  }

  /** Some implementation from i on belongs to `name` and its reader failed. */
  predicate FailedFrom(impls: seq<HookImpl>, i: nat, name: string) {
    exists k :: i <= k < |impls| && impls[k].pluginName == name && ReaderFailed(impls[k])
  }

  /** The loop itself only fails when some napari_get_reader raises; it fails with that
      implementation's error. */
  lemma {:induction false} FallbackFailsOnlyOnRaise(impls: seq<HookImpl>, i: nat, layerData: PyValue, errors: seq<string>)
    ensures var r := Fallback(impls, i, layerData, errors).0;
            r.Err? ==> exists k :: i <= k < |impls| && impls[k].getReader == GetReaderRaises &&
                                    r.error == PluginCallError(impls[k].pluginName)
    decreases |impls| - i
  {
    if i < |impls| {
      var name := impls[i].pluginName;
      match impls[i].getReader
      case ReturnsNone => FallbackFailsOnlyOnRaise(impls, i + 1, layerData, errors);
      case GetReaderRaises =>
      case ReturnsReader(NotCallable(t)) =>
        if t { FallbackFailsOnlyOnRaise(impls, i + 1, layerData, errors + [name]); }
      case ReturnsReader(Callable(ReadRaises)) => FallbackFailsOnlyOnRaise(impls, i + 1, layerData, errors + [name]);
      case ReturnsReader(Callable(Returns(d))) =>
        if !Truthy(d) { FallbackFailsOnlyOnRaise(impls, i + 1, d, errors); }
    }
  }

  /** Reader failures are collected, never raised: the errors gathered so far are kept,
      and each one added names an implementation whose reader failed. */
  lemma {:induction false} FallbackCollectsErrors(impls: seq<HookImpl>, i: nat, layerData: PyValue, errors: seq<string>)
    ensures var errs := Fallback(impls, i, layerData, errors).1;
            && |errors| <= |errs| && errs[..|errors|] == errors
            && forall m :: |errors| <= m < |errs| ==> FailedFrom(impls, i, errs[m])
    decreases |impls| - i
  {
    if i < |impls| {
      var name := impls[i].pluginName;
      match impls[i].getReader
      case ReturnsNone =>
        FallbackCollectsErrors(impls, i + 1, layerData, errors);
        FailedFromWidens(impls, i, Fallback(impls, i + 1, layerData, errors).1, |errors|);
      case GetReaderRaises =>
      case ReturnsReader(NotCallable(t)) =>
        if t { CollectOne(impls, i, layerData, errors); }
      case ReturnsReader(Callable(ReadRaises)) => CollectOne(impls, i, layerData, errors);
      case ReturnsReader(Callable(Returns(d))) =>
        if !Truthy(d) {
          FallbackCollectsErrors(impls, i + 1, d, errors);
          FailedFromWidens(impls, i, Fallback(impls, i + 1, d, errors).1, |errors|);
        }
    }
  }

  /** The step of FallbackCollectsErrors where implementation i's reader failed. */
  lemma {:induction false} CollectOne(impls: seq<HookImpl>, i: nat, layerData: PyValue, errors: seq<string>)
    requires i < |impls| && ReaderFailed(impls[i])
    requires Fallback(impls, i, layerData, errors) == Fallback(impls, i + 1, layerData, errors + [impls[i].pluginName])
    ensures var errs := Fallback(impls, i, layerData, errors).1;
            && |errors| <= |errs| && errs[..|errors|] == errors
            && forall m :: |errors| <= m < |errs| ==> FailedFrom(impls, i, errs[m])
    decreases |impls| - i, 0
  {
    var name := impls[i].pluginName;
    FallbackCollectsErrors(impls, i + 1, layerData, errors + [name]);
    var errs := Fallback(impls, i + 1, layerData, errors + [name]).1;
    assert errs[..|errors| + 1] == errors + [name];
    assert errs[..|errors|] == (errors + [name])[..|errors|] == errors;
    assert errs[|errors|] == name;
    assert FailedFrom(impls, i, name);
    FailedFromWidens(impls, i, errs, |errors| + 1);
  }

  /** What failed from i + 1 on failed from i on. */
  lemma FailedFromWidens(impls: seq<HookImpl>, i: nat, errs: seq<string>, lo: nat)
    requires forall m :: lo <= m < |errs| ==> FailedFrom(impls, i + 1, errs[m])
    ensures forall m :: lo <= m < |errs| ==> FailedFrom(impls, i, errs[m])
  {
    forall m | lo <= m < |errs| ensures FailedFrom(impls, i, errs[m]) {
      var k :| i + 1 <= k < |impls| && impls[k].pluginName == errs[m] && ReaderFailed(impls[k]);
    }
  }

  /** Data paired with a plugin is that plugin's truthy reader result. */
  lemma {:induction false} FallbackDataSource(impls: seq<HookImpl>, i: nat, layerData: PyValue, errors: seq<string>)
    ensures var r := Fallback(impls, i, layerData, errors).0;
            r.Ok? && r.value.1.Some? ==>
              exists k :: i <= k < |impls| && impls[k].pluginName == r.value.1.value &&
                          impls[k].getReader == ReturnsReader(Callable(Returns(r.value.0))) && Truthy(r.value.0)
    decreases |impls| - i
  {
    if i < |impls| {
      var name := impls[i].pluginName;
      match impls[i].getReader
      case ReturnsNone => FallbackDataSource(impls, i + 1, layerData, errors);
      case GetReaderRaises =>
      case ReturnsReader(NotCallable(t)) =>
        if t { FallbackDataSource(impls, i + 1, layerData, errors + [name]); }
      case ReturnsReader(Callable(ReadRaises)) => FallbackDataSource(impls, i + 1, layerData, errors + [name]);
      case ReturnsReader(Callable(Returns(d))) =>
        if !Truthy(d) { FallbackDataSource(impls, i + 1, d, errors); }
    }
  }

  /** Under the loop's invariant (everything before i not skipped yields None, every
      skipped index is before i) the engine's first result is the first implementation
      from i on that does not return None. */
  lemma FirstResultFromScan(impls: seq<HookImpl>, skip: seq<nat>, i: nat)
    requires i <= |impls|
    requires forall j :: j in skip ==> j < i
    requires forall j :: 0 <= j < i && j !in skip ==> impls[j].getReader == ReturnsNone
    ensures FirstResult(impls, skip, 0) == FirstResult(impls, [], i)
  {
    var a, b := FirstResult(impls, skip, 0), FirstResult(impls, [], i);
    assert a.Some? ==> a.value >= i;
    assert b.Some? ==> b.value !in skip;
  }

  /** Lines 123-145 of read_data_with_plugins: offer the path to one reader after another,
      skipping every implementation already tried, until one yields data or none is left. */
  method ReadFallbackLoop(impls: seq<HookImpl>)
    returns (r: Result<(PyValue, Option<string>), ReadError>, errors: seq<string>, skip: seq<nat>)
    ensures (r, errors) == Fallback(impls, 0, PyNone, [])
    ensures forall j :: j in skip ==> 0 <= j < |impls| && Passes(impls[j])
    ensures forall a, b :: 0 <= a < b < |skip| ==> skip[a] < skip[b]
  {
    errors := [];
    skip := [];
    var layerData := PyNone;
    var hookimpl: Option<string> := None;
    ghost var pos := 0;
    while true
      invariant pos <= |impls| && hookimpl == None
      invariant forall j :: j in skip ==> j < pos && Passes(impls[j])
      invariant forall a, b :: 0 <= a < b < |skip| ==> skip[a] < skip[b]
      invariant forall j :: 0 <= j < pos && j !in skip ==> impls[j].getReader == ReturnsNone
      invariant Fallback(impls, pos, layerData, errors) == Fallback(impls, 0, PyNone, [])
      decreases |impls| - pos
    {
      FirstResultFromScan(impls, skip, pos);
      var result := FirstResult(impls, skip, 0);
      if result.None? {
        // no implementation returned a reader
        FallbackSkipsNone(impls, pos, |impls|, layerData, errors);
        break;
      }
      var j := result.value;
      FallbackSkipsNone(impls, pos, j, layerData, errors);
      var impl := impls[j];
      match impl.getReader {
        case GetReaderRaises =>
          return Err(PluginCallError(impl.pluginName)), errors, skip;
        case ReturnsReader(reader) =>
          if reader.NotCallable? && !reader.truthy {
            // `if not reader: break`
            break;
          }
          if reader.NotCallable? || reader.onRead.ReadRaises? {
            // calling it raised: collect the error, do not raise it
            errors := errors + [impl.pluginName];
          } else {
            layerData := reader.onRead.data;
            if Truthy(layerData) {
              hookimpl := Some(impl.pluginName);
              break;
            }
          }
          assert forall a :: 0 <= a < |skip| ==> skip[a] in skip;
          skip := skip + [j];
          pos := j + 1;
      }
    }
    r := Ok((layerData, hookimpl));
  }

  /** Implementations that return None are passed over without effect. */
  lemma {:induction false} FallbackSkipsNone(impls: seq<HookImpl>, i: nat, j: nat, layerData: PyValue, errors: seq<string>)
    requires i <= j <= |impls|
    requires forall k :: i <= k < j ==> impls[k].getReader == ReturnsNone
    ensures Fallback(impls, i, layerData, errors) == Fallback(impls, j, layerData, errors)
    decreases j - i
  {
    if i < j {
      FallbackSkipsNone(impls, i + 1, j, layerData, errors);
    }
  }

  /** The plugin a read or write is directed to: an explicit truthy name, otherwise, for a
      single path, whatever is registered for its extension. */
  function ChoosePlugin(plugin: Option<string>, path: Path, extensionPlugin: Option<string>): (r: Option<string>)
    ensures plugin.Some? && |plugin.value| > 0 ==> r == plugin
    ensures (plugin.None? || |plugin.value| == 0) && path.Single? ==> r == extensionPlugin
  {
    if plugin.Some? && |plugin.value| > 0 then plugin
    else if path.Single? then extensionPlugin
    else plugin
  }

  function FindImpl(impls: seq<HookImpl>, name: string): (r: Option<nat>)
    ensures r.Some? ==> r.value < |impls| && impls[r.value].pluginName == name
    ensures r.None? ==> forall k :: 0 <= k < |impls| ==> impls[k].pluginName != name
  {
    if |impls| == 0 then None
    else if impls[0].pluginName == name then Some(0)
    else match FindImpl(impls[1..], name)
      case None => None
      case Some(k) => Some(k + 1)
  }

  /** Lines 92-121: read with one named plugin. An unregistered name, a missing or
      non-callable reader are errors; a raising reader propagates; the sentinel reads as
      `[]` and falsy data as None. */
  function ReadWithPlugin(plugin: string, env: ReadEnv): (r: Result<(Option<PyValue>, Option<string>), ReadError>)
    ensures plugin !in env.registered ==> r == Err(NoRegisteredPlugin(plugin))
    ensures r.Ok? ==> r.value.1 == Some(plugin)
  {
    if plugin !in env.registered then Err(NoRegisteredPlugin(plugin))
    else match FindImpl(env.impls, plugin)
      case None => Err(NoImplementation(plugin))
      case Some(k) =>
        match env.impls[k].getReader
        case GetReaderRaises => Err(PluginCallError(plugin))
        case ReturnsNone => Err(NotSupported(plugin))
        case ReturnsReader(NotCallable(_)) => Err(NotSupported(plugin))
        case ReturnsReader(Callable(ReadRaises)) => Err(PluginCallError(plugin))
        case ReturnsReader(Callable(Returns(d))) =>
          if IsNullLayerSentinel(d) then Ok((Some(EmptyLayerList), Some(plugin)))
          else Ok((OrNone(d), Some(plugin)))
  }

  /** read_data_with_plugins, as a specification: the layer data (or None) and the plugin
      whose implementation read it. */
  function ReadDataSpec(path: Path, plugin: Option<string>, env: ReadEnv): (r: Result<(Option<PyValue>, Option<string>), ReadError>)
    ensures r.Ok? && r.value.0.Some? ==> !IsNullLayerSentinel(r.value.0.value)
  {
    match env.npe2
    case Npe2Raises => Err(Npe2ReadError)
    case Npe2Reads(ld, reader) => Ok((Some(SentinelToEmpty(ld)), Some(reader)))
    case Npe2Declines =>
      var chosen := ChoosePlugin(plugin, path, env.extensionPlugin);
      if chosen.Some? && |chosen.value| > 0 then ReadWithPlugin(chosen.value, env)
      else
        match Fallback(env.impls, 0, PyNone, []).0
        case Err(e) => Err(e)
        case Ok((ld, hookimpl)) =>
          if !Truthy(ld) then Err(NoReaderFound(path))
          else Ok((Some(SentinelToEmpty(ld)), hookimpl))
  }

  /** read_data_with_plugins: npe2 first, then a named plugin, then the fallback loop. */
  method ReadDataWithPlugins(path: Path, plugin: Option<string>, env: ReadEnv)
    returns (r: Result<(Option<PyValue>, Option<string>), ReadError>, errors: seq<string>)
    ensures r == ReadDataSpec(path, plugin, env)
    ensures env.npe2.Npe2Raises? ==> r == Err(Npe2ReadError)
    ensures env.npe2.Npe2Declines? && !(ChoosePlugin(plugin, path, env.extensionPlugin).Some? &&
              |ChoosePlugin(plugin, path, env.extensionPlugin).value| > 0) ==>
              errors == Fallback(env.impls, 0, PyNone, []).1
  {
    errors := [];
    match env.npe2 {
      case Npe2Raises =>
        return Err(Npe2ReadError), errors;
      case Npe2Reads(ld, reader) =>
        return Ok((Some(SentinelToEmpty(ld)), Some(reader))), errors;
      case Npe2Declines =>
    }
    var chosen := ChoosePlugin(plugin, path, env.extensionPlugin);
    if chosen.Some? && |chosen.value| > 0 {
      return ReadWithPlugin(chosen.value, env), errors;
    }
    var loop;
    var skip;
    loop, errors, skip := ReadFallbackLoop(env.impls);
    if loop.Err? {
      return Err(loop.error), errors;
    }
    var (ld, hookimpl) := loop.value;
    if !Truthy(ld) {
      return Err(NoReaderFound(path)), errors;
    }
    r := Ok((Some(SentinelToEmpty(ld)), hookimpl));
  }

  /** A successful npe2 read wins over every other reader; its sentinel reads as `[]`. */
  lemma ReadNpe2ShortCircuits(path: Path, plugin: Option<string>, env: ReadEnv, ld: PyValue, reader: string)
    requires env.npe2 == Npe2Reads(ld, reader)
    ensures ReadDataSpec(path, plugin, env) == Ok((Some(if ld == PyList([PyTuple([PyNone])]) then EmptyLayerList else ld), Some(reader)))
  {
    NullLayerSentinelIsLiteral(ld);
  }

  /** With a named plugin: a reader result is returned as `[]` for the sentinel, None for
      falsy data and unchanged otherwise, paired with that plugin. */
  lemma ReadWithPluginResult(plugin: string, env: ReadEnv, k: nat, d: PyValue)
    requires plugin in env.registered && k < |env.impls|
    requires env.impls[k] == HookImpl(plugin, ReturnsReader(Callable(Returns(d))))
    requires forall j :: 0 <= j < k ==> env.impls[j].pluginName != plugin
    ensures IsNullLayerSentinel(d) ==> ReadWithPlugin(plugin, env) == Ok((Some(EmptyLayerList), Some(plugin)))
    ensures !IsNullLayerSentinel(d) && !Truthy(d) ==> ReadWithPlugin(plugin, env) == Ok((None, Some(plugin)))
    ensures !IsNullLayerSentinel(d) && Truthy(d) ==> ReadWithPlugin(plugin, env) == Ok((Some(d), Some(plugin)))
  {
    FindImplFirst(env.impls, plugin, k);
  }

  lemma {:induction false} FindImplFirst(impls: seq<HookImpl>, name: string, k: nat)
    requires k < |impls| && impls[k].pluginName == name
    requires forall j :: 0 <= j < k ==> impls[j].pluginName != name
    ensures FindImpl(impls, name) == Some(k)
  {
    if k > 0 {
      FindImplFirst(impls[1..], name, k - 1);
    }
  }

  /** With a named plugin, a reader that is missing or not callable is an error. */
  lemma ReadWithPluginNotSupported(plugin: string, env: ReadEnv, k: nat)
    requires plugin in env.registered && k < |env.impls| && env.impls[k].pluginName == plugin
    requires forall j :: 0 <= j < k ==> env.impls[j].pluginName != plugin
    requires env.impls[k].getReader == ReturnsNone || (env.impls[k].getReader.ReturnsReader? && env.impls[k].getReader.reader.NotCallable?)
    ensures ReadWithPlugin(plugin, env) == Err(NotSupported(plugin))
  {
    FindImplFirst(env.impls, plugin, k);
  }

  /** When no plugin is named or found for the extension and no reader yields data, the
      read fails with NoReaderFound; otherwise the data is truthy or the empty list. */
  lemma ReadFallbackResult(path: Path, plugin: Option<string>, env: ReadEnv)
    requires env.npe2.Npe2Declines?
    requires var c := ChoosePlugin(plugin, path, env.extensionPlugin); c.None? || |c.value| == 0
    ensures var r := ReadDataSpec(path, plugin, env);
            && (r.Ok? ==> r.value.0.Some? && (Truthy(r.value.0.value) || r.value.0.value == EmptyLayerList))
            && (Fallback(env.impls, 0, PyNone, []).0.Ok? && !Truthy(Fallback(env.impls, 0, PyNone, []).0.value.0) ==>
                  r == Err(NoReaderFound(path)))
  {
  }

  // ---------------------------------------------------------------------------
  // Writing

  /** A layer as `as_layer_data_tuple` gives it: data, metadata and layer type. */
  datatype Layer = Layer(data: PyValue, meta: PyValue, layerType: string)

  /** What an npe2 writer command returns: a path, a list of paths, or None. */
  datatype ExecResult = ExecStr(s: string) | ExecList(paths: seq<string>) | ExecNone

  /** What executing an npe2 writer command does: return, or raise (nothing catches it). */
  datatype ExecOutcome = ExecReturns(res: ExecResult) | ExecRaises

  /** The arguments an npe2 writer command is called with. */
  datatype WriterArgs =
    | SingleLayerArgs(path: string, data: PyValue, meta: PyValue)
    | MultiLayerArgs(path: string, layers: seq<Layer>)

  /** An npe2 writer contribution: the maxima of its layer-type constraints and what
      executing it returns for given arguments. */
  datatype WriterContribution = WriterContribution(constraintMaxima: seq<nat>, exec: WriterArgs -> ExecOutcome)

  datatype WriteError =
    | NoRegisteredWriter(plugin: string)          // "There is no registered plugin named ..."
    | NoWriterImplementation(plugin: string)      // the engine finds no implementation for the name
    | NotCapable(requested: Option<string>)       // "... not capable of writing this combination ..."
    | WriterCallError(plugin: string)             // PluginCallError around a hook or writer exception
    | EmptyLayerListIndex                         // `layer_data[0]` on no layers
    | Npe2WriteError                              // an exception out of npe2.write or a writer command
    | NoWriteHook(layerType: string)              // AttributeError: no napari_write_<layer type> hook

  function Sum(xs: seq<nat>): nat {
    if |xs| == 0 then 0 else xs[0] + Sum(xs[1..])
  }

  /** Line 329: a string result becomes a one-element list (even the empty string), None
      becomes `[]`, and a list is returned as it is. */
  function NormalizeWriteResult(res: ExecResult): (paths: seq<string>)
    ensures res.ExecStr? ==> paths == [res.s]
    ensures res.ExecNone? ==> paths == []
    ensures res.ExecList? ==> paths == res.paths
  {
    match res
    case ExecStr(s) => [s]
    case ExecList(ps) => ps
    case ExecNone => []
  }

  /** Line 326-327: a writer that takes at most one layer in all is called with the first
      layer's data and metadata, any other with every layer. */
  function WriterCallArgs(path: string, layers: seq<Layer>, writer: WriterContribution): (r: Result<WriterArgs, WriteError>)
    ensures Sum(writer.constraintMaxima) <= 1 && |layers| > 0 ==>
              r == Ok(SingleLayerArgs(path, layers[0].data, layers[0].meta))
    ensures Sum(writer.constraintMaxima) <= 1 && |layers| == 0 ==> r == Err(EmptyLayerListIndex)
    ensures Sum(writer.constraintMaxima) > 1 ==> r == Ok(MultiLayerArgs(path, layers))
  {
    if Sum(writer.constraintMaxima) <= 1 then
      if |layers| == 0 then Err(EmptyLayerListIndex)
      else Ok(SingleLayerArgs(path, layers[0].data, layers[0].meta))
    else Ok(MultiLayerArgs(path, layers))
  }

  /** What `npe2.write` does: return the paths written, or raise (nothing catches it). */
  datatype Npe2Write = Npe2Wrote(paths: seq<string>) | Npe2WriteRaises

  /** The npe2 side of writing: whether npe2 is installed and what `npe2.write` does. */
  datatype Npe2Env = Npe2Env(available: bool, write: Npe2Write)

  /** _write_layers_with_npe2: no npe2 writes nothing; without a chosen writer npe2 picks
      one; a chosen writer is called with the arguments its constraints call for. An
      exception out of npe2 or out of the writer propagates. */
  function WriteLayersWithNpe2(path: string, layers: seq<Layer>, writer: Option<WriterContribution>, npe2: Npe2Env)
    : (r: Result<seq<string>, WriteError>)
    ensures !npe2.available ==> r == Ok([])
    ensures npe2.available && writer.None? ==>
              (r.Ok? <==> npe2.write.Npe2Wrote?) && (r.Ok? ==> r.value == npe2.write.paths) &&
              (r.Err? ==> r.error == Npe2WriteError)
    ensures npe2.available && writer.Some? && r.Ok? ==>
              exists args :: WriterCallArgs(path, layers, writer.value) == Ok(args) &&
                             writer.value.exec(args).ExecReturns? &&
                             r.value == NormalizeWriteResult(writer.value.exec(args).res)
    ensures npe2.available && writer.Some? && r.Err? ==>
              r.error == EmptyLayerListIndex ||
              exists args :: WriterCallArgs(path, layers, writer.value) == Ok(args) &&
                             writer.value.exec(args) == ExecRaises && r.error == Npe2WriteError
  {
    if !npe2.available then Ok([])
    else if writer.None? then
      match npe2.write
      case Npe2Wrote(paths) => Ok(paths)
      case Npe2WriteRaises => Err(Npe2WriteError)
    else
      match WriterCallArgs(path, layers, writer.value)
      case Err(e) => Err(e)
      case Ok(args) =>
        match writer.value.exec(args)
        case ExecRaises => Err(Npe2WriteError)
        case ExecReturns(res) => Ok(NormalizeWriteResult(res))
  }

  /** What a writer function does when called. */
  datatype WriteOutcome = Wrote(paths: seq<string>) | WriteRaises

  datatype WriterFn = WriterCallable(onWrite: WriteOutcome) | WriterNotCallable

  /** What a napari_get_writer implementation does for the path and layer types. */
  datatype GetWriter = NoWriter | GetWriterRaises | ReturnsWriter(fn: WriterFn)

  datatype WriterImpl = WriterImpl(pluginName: string, getWriter: GetWriter)

  /** What a napari_write_<layer type> implementation does with one layer. */
  datatype SingleWrite = WroteNone | WrotePath(path: string) | SingleWriteRaises

  datatype SingleWriterImpl = SingleWriterImpl(pluginName: string, write: SingleWrite)

  /** The plugin-engine side of writing: registered plugins, the plugin registered for the
      path's extension, the napari_get_writer implementations and, per layer type, the
      napari_write_<layer type> implementations in call order, or None when the plugin
      manager has no such hook. */
  datatype WriteEnv = WriteEnv(
    npe2: Npe2Env,
    registered: set<string>,
    extensionPlugin: Option<string>,
    getWriterImpls: seq<WriterImpl>,
    singleWriterImpls: string -> Option<seq<SingleWriterImpl>>)

  /** `hook_caller.call_with_result_obj` for napari_get_writer, from implementation i on:
      the first implementation that does not return None, with its plugin's name; a
      raising one ends the call with its error. */
  function FirstWriter(impls: seq<WriterImpl>, i: nat): (r: Result<Option<(WriterFn, string)>, WriteError>)
    decreases |impls| - i
    ensures r.Ok? && r.value.Some? ==>
              exists k :: i <= k < |impls| && impls[k] == WriterImpl(r.value.value.1, ReturnsWriter(r.value.value.0)) &&
                          forall j :: i <= j < k ==> impls[j].getWriter == NoWriter
    ensures r == Ok(None) <==> forall k :: i <= k < |impls| ==> impls[k].getWriter == NoWriter
    ensures r.Err? ==>
              exists k :: i <= k < |impls| && impls[k].getWriter == GetWriterRaises &&
                          r.error == WriterCallError(impls[k].pluginName) &&
                          forall j :: i <= j < k ==> impls[j].getWriter == NoWriter
  {
    if i >= |impls| then Ok(None)
    else match impls[i].getWriter
      case NoWriter => FirstWriter(impls, i + 1)
      case GetWriterRaises => Err(WriterCallError(impls[i].pluginName))
      case ReturnsWriter(fn) => Ok(Some((fn, impls[i].pluginName)))
  }

  function FindWriterImpl(impls: seq<WriterImpl>, name: string): (r: Option<nat>)
    ensures r.Some? ==> r.value < |impls| && impls[r.value].pluginName == name
    ensures r.Some? ==> forall j :: 0 <= j < r.value ==> impls[j].pluginName != name
    ensures r.None? ==> forall k :: 0 <= k < |impls| ==> impls[k].pluginName != name
  {
    if |impls| == 0 then None
    else if impls[0].pluginName == name then Some(0)
    else match FindWriterImpl(impls[1..], name)
      case None => None
      case Some(k) => Some(k + 1)
  }

  /** _write_multiple_layers_with_plugins. */
  function WriteMultiple(path: string, layers: seq<Layer>, plugin: Option<string>, writer: Option<WriterContribution>, env: WriteEnv)
    : (r: Result<seq<string>, WriteError>)
    ensures var n := WriteLayersWithNpe2(path, layers, writer, env.npe2);
            n.Ok? && |n.value| > 0 ==> r == n
  {
    match WriteLayersWithNpe2(path, layers, writer, env.npe2)
    case Err(e) => Err(e)
    case Ok(written) =>
      if |written| > 0 then Ok(written)
      else
        var chosen := ChoosePlugin(plugin, Single(path), env.extensionPlugin);
        var found: Result<(Option<WriterFn>, Option<string>), WriteError> :=
          if chosen.Some? && |chosen.value| > 0 then
            var name := chosen.value;
            if name !in env.registered then Err(NoRegisteredWriter(name))
            else match FindWriterImpl(env.getWriterImpls, name)
              case None => Err(NoWriterImplementation(name))
              case Some(k) =>
                match env.getWriterImpls[k].getWriter
                case NoWriter => Ok((None, Some(name)))
                case GetWriterRaises => Err(WriterCallError(name))
                case ReturnsWriter(fn) => Ok((Some(fn), Some(name)))
          else
            match FirstWriter(env.getWriterImpls, 0)
            case Err(e) => Err(e)
            case Ok(None) => Ok((None, None))
            case Ok(Some((fn, name))) => Ok((Some(fn), Some(name)));
        match found
        case Err(e) => Err(e)
        case Ok((fn, impl)) =>
          if fn.None? || fn.value.WriterNotCallable? then
            Err(NotCapable(if chosen.Some? && |chosen.value| > 0 then chosen else None))
          else match fn.value.onWrite
            case WriteRaises => Err(WriterCallError(impl.GetOr("")))
            case Wrote(paths) => Ok(paths)
  }

  /** The error paths of the multi-layer writer once npe2 is absent or writes nothing: an
      unregistered name, a writer that is missing or not callable, and a raising writer. */
  lemma WriteMultipleErrors(path: string, layers: seq<Layer>, name: string, env: WriteEnv, k: nat)
    requires |name| > 0 && WriteLayersWithNpe2(path, layers, None, env.npe2) == Ok([])
    ensures name !in env.registered ==> WriteMultiple(path, layers, Some(name), None, env) == Err(NoRegisteredWriter(name))
    ensures name in env.registered && FindWriterImpl(env.getWriterImpls, name) == Some(k) ==>
              (env.getWriterImpls[k].getWriter == NoWriter ||
               env.getWriterImpls[k].getWriter == ReturnsWriter(WriterNotCallable) ==>
                 WriteMultiple(path, layers, Some(name), None, env) == Err(NotCapable(Some(name))))
    ensures name in env.registered && FindWriterImpl(env.getWriterImpls, name) == Some(k) ==>
              (env.getWriterImpls[k].getWriter == ReturnsWriter(WriterCallable(WriteRaises)) ==>
                 WriteMultiple(path, layers, Some(name), None, env) == Err(WriterCallError(name)))
  {
  }

  /** With npe2 absent or writing nothing, no plugin named and none for the extension, the
      first napari_get_writer that offers a writer is used; when none does, the layers
      cannot be written. */
  lemma WriteMultipleFirstWriter(path: string, layers: seq<Layer>, env: WriteEnv, paths: seq<string>, name: string)
    requires WriteLayersWithNpe2(path, layers, None, env.npe2) == Ok([]) && env.extensionPlugin.None?
    ensures (forall k :: 0 <= k < |env.getWriterImpls| ==> env.getWriterImpls[k].getWriter == NoWriter) ==>
              WriteMultiple(path, layers, None, None, env) == Err(NotCapable(None))
    ensures FirstWriter(env.getWriterImpls, 0) == Ok(Some((WriterCallable(Wrote(paths)), name))) ==>
              WriteMultiple(path, layers, None, None, env) == Ok(paths)
    ensures FirstWriter(env.getWriterImpls, 0) == Ok(Some((WriterCallable(WriteRaises), name))) ==>
              WriteMultiple(path, layers, None, None, env) == Err(WriterCallError(name))
  {
  }

  /** The hook call's result when the implementation of plugin `name` is the one called. */
  function SingleWriteResult(w: SingleWrite, name: string): Result<Option<string>, WriteError> {
    match w
    case WroteNone => Ok(None)
    case WrotePath(p) => Ok(Some(p))
    case SingleWriteRaises => Err(WriterCallError(name))
  }

  /** The napari_write_<layer type> hook call, from implementation i on: with a plugin,
      that plugin's implementation, and an error when it has none; otherwise the first
      implementation that returns a path or raises (firstresult), and None when none
      does. */
  function CallSingleWriter(impls: seq<SingleWriterImpl>, plugin: Option<string>, i: nat): (r: Result<Option<string>, WriteError>)
    decreases |impls| - i
    ensures plugin.Some? ==>
              (r == Err(NoWriterImplementation(plugin.value)) <==>
               forall k :: i <= k < |impls| ==> impls[k].pluginName != plugin.value)
    ensures plugin.Some? && r != Err(NoWriterImplementation(plugin.value)) ==>
              exists k :: i <= k < |impls| && impls[k].pluginName == plugin.value &&
                          (forall j :: i <= j < k ==> impls[j].pluginName != plugin.value) &&
                          r == SingleWriteResult(impls[k].write, plugin.value)
    ensures plugin.None? ==> (r == Ok(None) <==> forall k :: i <= k < |impls| ==> impls[k].write == WroteNone)
    ensures plugin.None? && r != Ok(None) ==>
              exists k :: i <= k < |impls| && impls[k].write != WroteNone &&
                          (forall j :: i <= j < k ==> impls[j].write == WroteNone) &&
                          r == SingleWriteResult(impls[k].write, impls[k].pluginName)
  {
    if i >= |impls| then
      if plugin.Some? then Err(NoWriterImplementation(plugin.value)) else Ok(None)
    else if plugin.Some? then
      if impls[i].pluginName == plugin.value then SingleWriteResult(impls[i].write, plugin.value)
      else CallSingleWriter(impls, plugin, i + 1)
    else if impls[i].write == WroteNone then CallSingleWriter(impls, plugin, i + 1)
    else SingleWriteResult(impls[i].write, impls[i].pluginName)
  }

  /** _write_single_layer_with_plugins: npe2 first (its first path), then the per-type hook,
      whose lookup fails before the plugin name is checked. */
  function WriteSingle(path: string, layer: Layer, plugin: Option<string>, writer: Option<WriterContribution>, env: WriteEnv)
    : (r: Result<Option<string>, WriteError>)
    ensures var n := WriteLayersWithNpe2(path, [layer], writer, env.npe2);
            n.Err? ==> r == Err(n.error)
    ensures var n := WriteLayersWithNpe2(path, [layer], writer, env.npe2);
            n.Ok? && |n.value| > 0 ==> r == Ok(Some(n.value[0]))
    ensures var n := WriteLayersWithNpe2(path, [layer], writer, env.npe2);
            n.Ok? && |n.value| == 0 && env.singleWriterImpls(layer.layerType).None? ==>
              r == Err(NoWriteHook(layer.layerType))
    ensures var n := WriteLayersWithNpe2(path, [layer], writer, env.npe2);
            var chosen := ChoosePlugin(plugin, Single(path), env.extensionPlugin);
            var named := if chosen.Some? && |chosen.value| > 0 then chosen else None;
            var hook := env.singleWriterImpls(layer.layerType);
            n.Ok? && |n.value| == 0 && hook.Some? && (named.None? || named.value in env.registered) ==>
              r == CallSingleWriter(hook.value, named, 0)
    ensures var n := WriteLayersWithNpe2(path, [layer], writer, env.npe2);
            var chosen := ChoosePlugin(plugin, Single(path), env.extensionPlugin);
            n.Ok? && |n.value| == 0 && env.singleWriterImpls(layer.layerType).Some? &&
            chosen.Some? && |chosen.value| > 0 && chosen.value !in env.registered ==>
              r == Err(NoRegisteredWriter(chosen.value))
  {
    match WriteLayersWithNpe2(path, [layer], writer, env.npe2)
    case Err(e) => Err(e)
    case Ok(written) =>
      if |written| > 0 then Ok(Some(written[0]))
      else match env.singleWriterImpls(layer.layerType)
        case None => Err(NoWriteHook(layer.layerType))
        case Some(impls) =>
          var chosen := ChoosePlugin(plugin, Single(path), env.extensionPlugin);
          if chosen.Some? && |chosen.value| > 0 && chosen.value !in env.registered then Err(NoRegisteredWriter(chosen.value))
          else
            var named := if chosen.Some? && |chosen.value| > 0 then chosen else None;
            CallSingleWriter(impls, named, 0)
  }

  /** save_layers: the written paths, and whether the "No data written!" warning is given. */
  function SaveLayers(path: string, layers: seq<Layer>, plugin: Option<string>, writer: Option<WriterContribution>, env: WriteEnv)
    : (r: Result<(seq<string>, bool), WriteError>)
    ensures r.Ok? ==> (r.value.1 <==> |r.value.0| == 0)
    ensures |layers| == 0 ==> r == Ok(([], true))
    ensures |layers| > 1 ==> (r.Ok? <==> WriteMultiple(path, layers, plugin, writer, env).Ok?)
    ensures |layers| > 1 && r.Ok? ==> r.value.0 == WriteMultiple(path, layers, plugin, writer, env).value
    ensures |layers| == 1 ==> (r.Ok? <==> WriteSingle(path, layers[0], plugin, writer, env).Ok?)
    ensures |layers| == 1 && r.Ok? ==>
              var w := WriteSingle(path, layers[0], plugin, writer, env).value;
              r.value.0 == (if w.Some? && |w.value| > 0 then [w.value] else [])
  {
    var written: Result<seq<string>, WriteError> :=
      if |layers| > 1 then WriteMultiple(path, layers, plugin, writer, env)
      else if |layers| == 1 then
        match WriteSingle(path, layers[0], plugin, writer, env)
        case Err(e) => Err(e)
        case Ok(w) => Ok(if w.Some? && |w.value| > 0 then [w.value] else [])
      else Ok([]);
    match written
    case Err(e) => Err(e)
    case Ok(w) => Ok((w, |w| == 0))
  }
}
