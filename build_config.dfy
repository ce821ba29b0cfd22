/**
 * The parts of the exported configuration that depend on the build mode. Every
 * one of them is a conditional on `isDev`, which holds exactly when the
 * environment variable NODE_ENV is the string "development"; the compile-time
 * constants also carry NODE_ENV itself.
 */
module BuildConfig {
  import opened Wrappers
  import opened Text

  /** `process.env.NODE_ENV === "development"`; an unset variable is not development. */
  predicate IsDev(nodeEnv: Option<string>) {
    nodeEnv == Some("development")
  }

  datatype Mode = Development | Production

  datatype LogLevel = Verbose | ErrorsOnly

  /** `infrastructureLogging`: production leaves `appendOnly` unset. */
  datatype Logging = Logging(appendOnly: Option<bool>, level: LogLevel)

  datatype Minimizer = SwcJsMinimizer | LightningCssMinimizer

  /**
   * A value substituted by the define plugin: a boolean, the JSON text of a
   * string, or `undefined`, which is what `JSON.stringify` gives for an unset
   * variable.
   */
  datatype DefineValue = BoolLit(b: bool) | JsonString(s: string) | Undefined

  datatype Plugin =
    | ProtocolImports
    | CssExtract(filename: string, chunkFilename: string)
    | Html
    | Define(definitions: map<string, DefineValue>)
    | Progress
    | ReactRefresh
    | TsChecker

  datatype Config = Config(
    mode: Mode,
    devtool: Option<string>,
    logging: Logging,
    filename: string,
    chunkFilename: string,
    publicPath: string,
    assetModuleFilename: string,
    webassemblyModuleFilename: string,
    minimize: bool,
    minimizers: seq<Minimizer>,
    swcDevelopment: bool,
    swcRefresh: bool,
    postcssEnv: string,
    postcssSourceMap: bool,
    definitions: map<string, DefineValue>,
    plugins: seq<Plugin>)

  /** The placeholder rspack replaces by the first eight characters of the content hash. */
  const ContentHash := ".[contenthash:8]"

  // ----- Output names ---------------------------------------------------------------------------

  function JsFilename(dev: bool): string {
    if dev then "static/js/[name].js" else "static/js/[name].[contenthash:8].js"
  }

  function JsChunkFilename(dev: bool): string {
    if dev then "static/js/async/[name].js" else "static/js/async/[name].[contenthash:8].js"
  }

  function CssFilename(dev: bool): string {
    if dev then "static/css/[name].css" else "static/css/[name].[contenthash:8].css"
  }

  function CssChunkFilename(dev: bool): string {
    if dev then "static/css/async/[name].css" else "static/css/async/[name].[contenthash:8].css"
  }

  // ----- Compile-time constants -----------------------------------------------------------------

  /** `JSON.stringify(process.env.NODE_ENV)` */
  function StringifiedEnv(nodeEnv: Option<string>): DefineValue {
    match nodeEnv
    case Some(v) => JsonString(v)
    case None => Undefined
  }

  function Definitions(nodeEnv: Option<string>): map<string, DefineValue> {
    map[
      "import.meta.env.MODE" := StringifiedEnv(nodeEnv),
      "import.meta.env.DEV" := BoolLit(IsDev(nodeEnv)),
      "import.meta.env.PROD" := BoolLit(!IsDev(nodeEnv)),
      "import.meta.env.BASE_URL" := JsonString("/"),
      "import.meta.env.ASSET_PREFIX" := JsonString(""),
      "process.env.BASE_URL" := JsonString("/"),
      "process.env.ASSET_PREFIX" := JsonString(""),
      "process.env.RUNTIME_ENV" := JsonString("web"),
      "process.env.NODE_ENV" := StringifiedEnv(nodeEnv)
    ]
  }

  // ----- Plugins ----------------------------------------------------------------------------------

  /** `.filter(Boolean)`: the list without its absent entries, in order. */
  function Compact(entries: seq<Option<Plugin>>): (r: seq<Plugin>)
    ensures |r| <= |entries|
  {
    if |entries| == 0 then []
    else
      match entries[0]
      case Some(p) => [p] + Compact(entries[1..])
      case None => Compact(entries[1..])
  }

  /** The plugin list as written, with `null` standing where development's refresh plugin is not. */
  function PluginEntries(nodeEnv: Option<string>): seq<Option<Plugin>> {
    var dev := IsDev(nodeEnv);
    [ Some(ProtocolImports),
      Some(CssExtract(CssFilename(dev), CssChunkFilename(dev))),
      Some(Html),
      Some(Define(Definitions(nodeEnv))),
      Some(Progress),
      if dev then Some(ReactRefresh) else None,
      Some(TsChecker) ]
  }

  // ----- The configuration ---------------------------------------------------------------------

  function BuildConfig(nodeEnv: Option<string>): Config {
    var dev := IsDev(nodeEnv);
    Config(
      mode := if dev then Development else Production,
      devtool := if dev then Some("cheap-module-source-map") else None,
      logging := if dev then Logging(Some(false), Verbose) else Logging(None, ErrorsOnly),
      filename := JsFilename(dev),
      chunkFilename := JsChunkFilename(dev),
      publicPath := if dev then "/" else "./",
      assetModuleFilename := "static/assets/[name].[contenthash:8][ext]",
      webassemblyModuleFilename := "static/wasm/[hash].module.wasm",
      minimize := !dev,
      minimizers := if dev then [] else [SwcJsMinimizer, LightningCssMinimizer],
      swcDevelopment := dev,
      swcRefresh := dev,
      postcssEnv := if dev then "development" else "production",
      postcssSourceMap := dev,
      definitions := Definitions(nodeEnv),
      plugins := Compact(PluginEntries(nodeEnv)))
  }

  // ----- Lemmas: plugins ---------------------------------------------------------------------------

  /** Filtering keeps exactly the present entries. */
  lemma {:induction false} CompactKeepsPresent(entries: seq<Option<Plugin>>, p: Plugin)
    ensures p in Compact(entries) <==> Some(p) in entries
    decreases |entries|
  {
    if |entries| > 0 {
      CompactKeepsPresent(entries[1..], p);
      assert entries == [entries[0]] + entries[1..];
    }
  }

  /** Filtering drops only absent entries: the result is as long as the number of present ones. */
  lemma {:induction false} CompactLength(entries: seq<Option<Plugin>>)
    ensures |Compact(entries)| + AbsentCount(entries) == |entries|
    decreases |entries|
  {
    if |entries| > 0 {
      CompactLength(entries[1..]);
    }
  }

  /** Filtering keeps the order of what it keeps: it distributes over concatenation. */
  lemma {:induction false} CompactAppend(a: seq<Option<Plugin>>, b: seq<Option<Plugin>>)
    ensures Compact(a + b) == Compact(a) + Compact(b)
    decreases |a|
  {
    if |a| > 0 {
      assert (a + b)[1..] == a[1..] + b;
      CompactAppend(a[1..], b);
    } else {
      assert a + b == b;
    }
  }

  /** How many entries are absent. */
  function AbsentCount(entries: seq<Option<Plugin>>): (r: nat)
    ensures r <= |entries|
    ensures r == 0 <==> forall i :: 0 <= i < |entries| ==> entries[i].Some?
  {
    if |entries| == 0 then 0
    else (if entries[0].None? then 1 else 0) + AbsentCount(entries[1..])
  }

  /** The refresh plugin is in the list exactly in development. */
  lemma ReactRefreshOnlyInDevelopment(nodeEnv: Option<string>)
    ensures ReactRefresh in BuildConfig(nodeEnv).plugins <==> IsDev(nodeEnv)
  {
    CompactKeepsPresent(PluginEntries(nodeEnv), ReactRefresh);
    EntriesShape(nodeEnv);
  }

  /** Production loses exactly one plugin, the refresh plugin; development keeps all seven. */
  lemma PluginCount(nodeEnv: Option<string>)
    ensures |BuildConfig(nodeEnv).plugins| == if IsDev(nodeEnv) then 7 else 6
  {
    var entries := PluginEntries(nodeEnv);
    CompactLength(entries);
    EntriesShape(nodeEnv);
    if !IsDev(nodeEnv) {
      assert entries == entries[..5] + [None] + entries[6..];
      AbsentCountAppend(entries[..5], [None]);
      AbsentCountAppend(entries[..5] + [None], entries[6..]);
    }
  }

  /** Seven entries, of which only the sixth, the refresh plugin, can be absent. */
  lemma EntriesShape(nodeEnv: Option<string>)
    ensures |PluginEntries(nodeEnv)| == 7
    ensures forall i :: 0 <= i < 7 && i != 5 ==> PluginEntries(nodeEnv)[i].Some?
    ensures PluginEntries(nodeEnv)[5] == if IsDev(nodeEnv) then Some(ReactRefresh) else None
    ensures forall i :: 0 <= i < 7 && i != 5 ==> PluginEntries(nodeEnv)[i] != Some(ReactRefresh)
  {
  }

  /** Absent entries of a concatenation are those of its parts. */
  lemma {:induction false} AbsentCountAppend(a: seq<Option<Plugin>>, b: seq<Option<Plugin>>)
    ensures AbsentCount(a + b) == AbsentCount(a) + AbsentCount(b)
    decreases |a|
  {
    if |a| > 0 {
      AbsentCountAppend(a[1..], b);
      assert (a + b)[1..] == a[1..] + b;
    } else {
      assert a + b == b;
    }
  }

  /** The protocol rewrite is registered first, before any other plugin sees a request. */
  lemma ProtocolImportsFirst(nodeEnv: Option<string>)
    ensures |BuildConfig(nodeEnv).plugins| > 0 && BuildConfig(nodeEnv).plugins[0] == ProtocolImports
  {
  }

  /** The define plugin carries the same table the configuration reports. */
  lemma DefinitionsRegistered(nodeEnv: Option<string>)
    ensures Define(BuildConfig(nodeEnv).definitions) in BuildConfig(nodeEnv).plugins
    ensures CssExtract(CssFilename(IsDev(nodeEnv)), CssChunkFilename(IsDev(nodeEnv))) in BuildConfig(nodeEnv).plugins
  {
    CompactKeepsPresent(PluginEntries(nodeEnv), Define(Definitions(nodeEnv)));
    CompactKeepsPresent(PluginEntries(nodeEnv), CssExtract(CssFilename(IsDev(nodeEnv)), CssChunkFilename(IsDev(nodeEnv))));
  }

  // ----- Lemmas: one switch ------------------------------------------------------------------------

  /**
   * Every mode-dependent setting follows the one switch: source maps, verbose
   * logging, SWC's development transform and refresh, PostCSS's environment and
   * source maps, the absolute public path, and no minimisation.
   */
  lemma ModeDecidesSettings(nodeEnv: Option<string>)
    ensures var c := BuildConfig(nodeEnv);
      && (c.mode == Development <==> IsDev(nodeEnv))
      && c.devtool == (if c.mode == Development then Some("cheap-module-source-map") else None)
      && (c.logging.level == Verbose <==> c.mode == Development)
      && c.swcDevelopment == c.swcRefresh == c.postcssSourceMap == (c.mode == Development)
      && c.postcssEnv == (if c.mode == Development then "development" else "production")
      && c.publicPath == (if c.mode == Development then "/" else "./")
  {
  }

  /** Minimisation is on exactly when there are minimizers to run, which is exactly in production. */
  lemma MinimizeOnlyInProduction(nodeEnv: Option<string>)
    ensures BuildConfig(nodeEnv).minimize == !IsDev(nodeEnv)
    ensures BuildConfig(nodeEnv).minimize <==> |BuildConfig(nodeEnv).minimizers| > 0
  {
  }

  /** An unset or unrecognised NODE_ENV builds for production. */
  lemma ProductionUnlessDevelopment(nodeEnv: Option<string>)
    requires nodeEnv != Some("development")
    ensures BuildConfig(nodeEnv).mode == Production
  {
  }

  // ----- Lemmas: compile-time constants ----------------------------------------------------------

  /** `import.meta.env.DEV` and `import.meta.env.PROD` are always each other's negation. */
  lemma DevAndProdComplementary(nodeEnv: Option<string>)
    ensures var d := BuildConfig(nodeEnv).definitions;
      && "import.meta.env.DEV" in d && "import.meta.env.PROD" in d
      && d["import.meta.env.DEV"].BoolLit? && d["import.meta.env.PROD"].BoolLit?
      && d["import.meta.env.PROD"].b == !d["import.meta.env.DEV"].b
      && (d["import.meta.env.DEV"].b <==> BuildConfig(nodeEnv).mode == Development)
  {
    DevAndProdLiterals(nodeEnv);
  }

  /** The DEV and PROD entries of the table, looked up. */
  lemma DevAndProdLiterals(nodeEnv: Option<string>)
    ensures "import.meta.env.DEV" in Definitions(nodeEnv) && "import.meta.env.PROD" in Definitions(nodeEnv)
    ensures Definitions(nodeEnv)["import.meta.env.DEV"] == BoolLit(IsDev(nodeEnv))
    ensures Definitions(nodeEnv)["import.meta.env.PROD"] == BoolLit(!IsDev(nodeEnv))
  {
  }

  /** The base URL, asset prefix and runtime name are the same whatever NODE_ENV says. */
  lemma FixedConstantsIgnoreMode(e1: Option<string>, e2: Option<string>)
    ensures forall key :: key in ModeFreeKeys ==>
      key in Definitions(e1) && key in Definitions(e2) && Definitions(e1)[key] == Definitions(e2)[key]
  {
  }

  const ModeFreeKeys: set<string> := {
    "import.meta.env.BASE_URL", "import.meta.env.ASSET_PREFIX",
    "process.env.BASE_URL", "process.env.ASSET_PREFIX", "process.env.RUNTIME_ENV"
  }

  /**
   * `MODE` and `NODE_ENV` carry the variable itself, not the mode the build
   * chose: they agree with each other, and are `undefined` when it is unset.
   */
  lemma ModeConstantIsRawEnv(nodeEnv: Option<string>)
    ensures var d := Definitions(nodeEnv);
      && "import.meta.env.MODE" in d && "process.env.NODE_ENV" in d
      && d["import.meta.env.MODE"] == d["process.env.NODE_ENV"]
      && (nodeEnv.None? <==> d["import.meta.env.MODE"] == Undefined)
      && (nodeEnv.Some? ==> d["import.meta.env.MODE"] == JsonString(nodeEnv.value))
  {
  }

  /** With NODE_ENV "test" the build is a production build whose `MODE` still reads "test". */
  lemma TestEnvBuildsProduction()
    ensures BuildConfig(Some("test")).mode == Production
    ensures BuildConfig(Some("test")).definitions["import.meta.env.MODE"] == JsonString("test")
  {
    ModeConstantIsRawEnv(Some("test"));
  }

  // ----- Lemmas: names -------------------------------------------------------------------------------

  /** A name template that asks for a content hash. */
  predicate Hashed(template: string) {
    Contains(template, "[contenthash") || Contains(template, "[hash")
  }

  /**
   * `prod` is `dev` with `ins` placed just before its extension: the last `.`,
   * after the last `/`.
   */
  predicate InsertedBeforeExtension(dev: string, ins: string, prod: string) {
    exists k :: 0 <= k < |dev| && dev[k] == '.' &&
      (forall t :: k < t < |dev| ==> dev[t] != '.' && dev[t] != '/') &&
      prod == dev[..k] + ins + dev[k..]
  }

  /** Development names never ask for a hash. */
  lemma DevelopmentNamesUnhashed()
    ensures !Hashed(JsFilename(true)) && !Hashed(JsChunkFilename(true))
    ensures !Hashed(CssFilename(true)) && !Hashed(CssChunkFilename(true))
  {
    forall s | s in [JsFilename(true), JsChunkFilename(true), CssFilename(true), CssChunkFilename(true)]
      ensures !Hashed(s)
    {
      MissingCharNotContained(s, "[contenthash", 'h');
      MissingCharNotContained(s, "[hash", 'h');
    }
  }

  lemma JsNameHashed()
    ensures InsertedBeforeExtension(JsFilename(true), ContentHash, JsFilename(false))
  {
    var dev := JsFilename(true);
    assert dev == "static/js/[name]" + ".js";
    assert dev[..16] == "static/js/[name]" && dev[16..] == ".js";
  }

  lemma JsChunkNameHashed()
    ensures InsertedBeforeExtension(JsChunkFilename(true), ContentHash, JsChunkFilename(false))
  {
    var dev := JsChunkFilename(true);
    assert dev == "static/js/async/[name]" + ".js";
    assert dev[..22] == "static/js/async/[name]" && dev[22..] == ".js";
  }

  lemma CssNameHashed()
    ensures InsertedBeforeExtension(CssFilename(true), ContentHash, CssFilename(false))
  {
    var dev := CssFilename(true);
    assert dev == "static/css/[name]" + ".css";
    assert dev[..17] == "static/css/[name]" && dev[17..] == ".css";
  }

  lemma CssChunkNameHashed()
    ensures InsertedBeforeExtension(CssChunkFilename(true), ContentHash, CssChunkFilename(false))
  {
    var dev := CssChunkFilename(true);
    assert dev == "static/css/async/[name]" + ".css";
    assert dev[..23] == "static/css/async/[name]" && dev[23..] == ".css";
  }

  /**
   * Production differs from development only by the content hash placed before
   * the extension, for the entry and async names of scripts and stylesheets.
   */
  lemma ProductionNamesInsertHash(nodeEnv: Option<string>)
    ensures var c := BuildConfig(nodeEnv);
      && (IsDev(nodeEnv) ==> c.filename == JsFilename(true) && c.chunkFilename == JsChunkFilename(true))
      && (!IsDev(nodeEnv) ==> InsertedBeforeExtension(JsFilename(true), ContentHash, c.filename))
      && (!IsDev(nodeEnv) ==> InsertedBeforeExtension(JsChunkFilename(true), ContentHash, c.chunkFilename))
  {
    JsNameHashed();
    JsChunkNameHashed();
  }

  /** Asset and WebAssembly names ask for a hash in both modes. */
  lemma AssetNamesAlwaysHashed(nodeEnv: Option<string>)
    ensures Hashed(BuildConfig(nodeEnv).assetModuleFilename)
    ensures Hashed(BuildConfig(nodeEnv).webassemblyModuleFilename)
  {
    assert OccursAt("static/assets/[name].[contenthash:8][ext]", "[contenthash", 21);
    assert OccursAt("static/wasm/[hash].module.wasm", "[hash", 12);
  }
}
