/**
 * Whether css-loader (and the typed-CSS-modules loader in front of it) treats a
 * stylesheet as a CSS module, with locally scoped class names, or as a global
 * stylesheet. Both loaders receive the same `modules.auto` callback.
 */
module CssModules {
  import opened Text
  import AssetRules

  /** Marks a path inside an installed package; only the forward-slash spelling is looked for. */
  const VendorMarker: string := "node_modules/"
  /** A query that asks for module mode. */
  const ModulesQuery: string := "?modules"
  /** The file-name infix of a CSS module, as in `button.module.css`. */
  const ModuleInfix: string := ".module."

  /** The `auto(resourcePath, resourceQuery)` callback. */
  predicate Auto(resourcePath: string, resourceQuery: string) {
    if Contains(resourcePath, VendorMarker) then false
    else if Contains(resourceQuery, ModulesQuery) then true
    else Contains(resourcePath, ModuleInfix)
  }

  /**
   * Module mode, stated as one equivalence: never for vendored styles, and
   * otherwise exactly when asked for by the query or by the file name.
   */
  lemma AutoCharacterised(resourcePath: string, resourceQuery: string)
    ensures Auto(resourcePath, resourceQuery) <==>
              !Contains(resourcePath, VendorMarker) &&
              (Contains(resourceQuery, ModulesQuery) || Contains(resourcePath, ModuleInfix))
  {
  }

  /** A stylesheet under `node_modules/` is global whatever its name and query. */
  lemma VendorStylesAreGlobal(resourcePath: string, resourceQuery: string)
    requires Contains(resourcePath, VendorMarker)
    ensures !Auto(resourcePath, resourceQuery)
  {
  }

  /** Appending `?modules` to the query of any non-vendored stylesheet switches module mode on. */
  lemma ModulesQueryForcesModuleMode(resourcePath: string, resourceQuery: string)
    requires !Contains(resourcePath, VendorMarker)
    ensures Auto(resourcePath, resourceQuery + ModulesQuery)
  {
    ContainsSuffix(resourceQuery, ModulesQuery);
  }

  /** Without the query marker, the `.module.` infix alone decides. */
  lemma FileNameDecidesWithoutQuery(resourcePath: string, resourceQuery: string)
    requires !Contains(resourcePath, VendorMarker)
    requires !Contains(resourceQuery, ModulesQuery)
    ensures Auto(resourcePath, resourceQuery) <==> Contains(resourcePath, ModuleInfix)
  {
  }

  /** More query text never turns module mode off. */
  lemma LongerQueryKeepsModuleMode(resourcePath: string, resourceQuery: string, more: string)
    requires Auto(resourcePath, resourceQuery)
    ensures Auto(resourcePath, resourceQuery + more)
  {
    if Contains(resourceQuery, ModulesQuery) {
      ContainsAppend(resourceQuery, more, ModulesQuery);
    }
  }

  /**
   * The vendor test looks for a forward slash only: a backslash-separated
   * path into `node_modules` with a `.module.` name is put in module mode.
   */
  lemma BackslashVendorPathIsModule()
    ensures Auto("C:\\app\\node_modules\\ui\\button.module.css", "")
  {
    var p := "C:\\app\\node_modules\\ui\\button.module.css";
    MissingCharNotContained(p, VendorMarker, '/');
    assert OccursAt(p, ModuleInfix, 29);
  }

  /**
   * The top-level `css` rule, which hands a stylesheet to the loader chain that
   * calls `Auto`: a `.css` path, unless it is imported as a URL.
   */
  predicate CssRuleApplies(path: string, dependency: string) {
    EndsWith(path, ".css") && !StringCondition(dependency, "url")
  }

  lemma CssNotListed()
    ensures "css" !in AssetRules.ImageExtensions && "css" !in AssetRules.MediaExtensions
    ensures "css" !in AssetRules.FontExtensions
  {
  }

  /** A `.css` path fails the case-insensitive image, media and font tests. */
  lemma CssFailsFoldedTests(path: string)
    requires EndsWith(path, ".css")
    ensures !AssetRules.HasExtensionFolded(path, AssetRules.ImageExtensions)
    ensures !AssetRules.HasExtensionFolded(path, AssetRules.MediaExtensions)
    ensures !AssetRules.HasExtensionFolded(path, AssetRules.FontExtensions)
  {
    AssetRules.ExtensionsDotFree();
    CssNotListed();
    assert ['.'] + "css" == ".css";
    AssetRules.SuffixFailsFoldedTest(path, "css", AssetRules.ImageExtensions);
    AssetRules.SuffixFailsFoldedTest(path, "css", AssetRules.MediaExtensions);
    AssetRules.SuffixFailsFoldedTest(path, "css", AssetRules.FontExtensions);
  }

  /** A `.css` file is never one of the asset categories, so the stylesheet rule and the asset rules never meet. */
  lemma StylesheetsAreNotAssets(req: AssetRules.Request)
    requires EndsWith(req.path, ".css")
    ensures AssetRules.Route(req).None?
  {
    CssFailsFoldedTests(req.path);
    CssIsNeitherSvgNorWasm(req.path);
  }

  /** A path ending in `.css` ends in neither `.svg` nor `.wasm`. */
  lemma CssIsNeitherSvgNorWasm(path: string)
    requires EndsWith(path, ".css")
    ensures !EndsWith(path, ".svg") && !EndsWith(path, ".wasm")
  {
    if EndsWith(path, ".svg") {
      DelimitedSuffixUnique(path, '.', "css", "svg");
    }
    if EndsWith(path, ".wasm") {
      DelimitedSuffixUnique(path, '.', "css", "wasm");
    }
  }

  /** No module is handled both by the stylesheet rule and by an asset rule. */
  lemma CssRuleExcludesAssetRules(req: AssetRules.Request)
    ensures !(CssRuleApplies(req.path, req.dependency) && AssetRules.Route(req).Some?)
  {
    if EndsWith(req.path, ".css") {
      StylesheetsAreNotAssets(req);
    }
  }
}
