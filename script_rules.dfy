/**
 * The rules of `module.rules` that hand JavaScript and TypeScript to the swc
 * loader: the `js` and `jsx` rules with their `include` conditions, the
 * `js-data-uri` rule, and the `mjs` rule that relaxes fully specified imports.
 */
module ScriptRules {
  import opened Text

  /** The configuration's directory (`__dirname`); a plain string condition matches paths it prefixes. */
  type Directory = string

  /** `/[\\/]node_modules[\\/]/` matches at index `i`. */
  predicate NodeModulesAt(path: string, i: int) {
    && 0 <= i
    && i + 13 < |path|
    && IsSeparator(path[i])
    && path[i + 1..i + 13] == "node_modules"
    && IsSeparator(path[i + 13])
  }

  predicate InNodeModules(path: string) {
    exists i :: 0 <= i < |path| && NodeModulesAt(path, i)
  }

  /** `{ and: [__dirname, { not: /[\\/]node_modules[\\/]/ }] }` */
  predicate InProjectSources(path: string, configDir: Directory) {
    StartsWith(path, configDir) && !InNodeModules(path)
  }

  /** `/\.(?:js|mjs|cjs|ts|mts|cts)$/` */
  const JsTest: seq<string> := [".js", ".mjs", ".cjs", ".ts", ".mts", ".cts"]
  /** `/\.(?:ts|mts|cts)$/`, the second `include` alternative of the `js` rule. */
  const TsInclude: seq<string> := [".ts", ".mts", ".cts"]
  /** `/\.(?:jsx|tsx)$/` */
  const JsxTest: seq<string> := [".jsx", ".tsx"]
  /** `/\.(?:tsx|jsx)$/`, the second `include` alternative of the `jsx` rule. */
  const JsxInclude: seq<string> := [".tsx", ".jsx"]

  /** The `js` rule: test, `dependency: { not: "url" }` and `include` (any alternative). */
  predicate JsRuleApplies(path: string, configDir: Directory, dependency: string) {
    && EndsWithAny(path, JsTest)
    && !StringCondition(dependency, "url")
    && (InProjectSources(path, configDir) || EndsWithAny(path, TsInclude))
  }

  /** The `jsx` rule, built the same way. */
  predicate JsxRuleApplies(path: string, configDir: Directory, dependency: string) {
    && EndsWithAny(path, JsxTest)
    && !StringCondition(dependency, "url")
    && (InProjectSources(path, configDir) || EndsWithAny(path, JsxInclude))
  }

  /** The `js-data-uri` rule: a `data:` module whose MIME type is one of the two JavaScript types. */
  predicate JsDataUriRuleApplies(mimetype: string) {
    StringCondition(mimetype, "text/javascript") || StringCondition(mimetype, "application/javascript")
  }

  /**
   * One of the `js`, `jsx` or `js-data-uri` rules hands the module to swc-loader.
   * The svg component entries also run swc-loader; they are `AssetRules.Component`.
   */
  predicate ScriptRuleHandsToSwc(path: string, mimetype: string, configDir: Directory, dependency: string) {
    JsRuleApplies(path, configDir, dependency) || JsxRuleApplies(path, configDir, dependency) ||
    JsDataUriRuleApplies(mimetype)
  }

  /** The `mjs` rule `/\.m?js/`, which is not anchored, so it matches `.js` anywhere in the path. */
  predicate RelaxesFullySpecified(path: string) {
    Contains(path, ".js") || Contains(path, ".mjs")
  }

  // ----- Lemmas ------------------------------------------------------------------------------

  lemma ExtensionOf(path: string, exts: seq<string>) returns (k: nat)
    requires EndsWithAny(path, exts)
    ensures k < |exts| && EndsWith(path, exts[k])
  {
    k :| 0 <= k < |exts| && EndsWith(path, exts[k]);
  }

  /** A `.js`, `.mjs` or `.cjs` path fails the TypeScript alternative of the `include`. */
  lemma PlainJsIsNotTs(path: string)
    requires EndsWithAny(path, [".js", ".mjs", ".cjs"])
    ensures !EndsWithAny(path, TsInclude)
  {
    var j := ExtensionOf(path, [".js", ".mjs", ".cjs"]);
    var e := [".js", ".mjs", ".cjs"][j];
    if EndsWithAny(path, TsInclude) {
      var k := ExtensionOf(path, TsInclude);
      assert e == ['.'] + e[1..] && TsInclude[k] == ['.'] + TsInclude[k][1..];
      assert e[1..] != TsInclude[k][1..];
      DelimitedSuffixUnique(path, '.', e[1..], TsInclude[k][1..]);
    }
  }

  /**
   * The `js` rule takes plain JavaScript only from the project's own sources:
   * under the configuration directory and outside `node_modules`.
   */
  lemma PlainJsTakenOnlyFromSources(path: string, configDir: Directory, dependency: string)
    requires EndsWithAny(path, [".js", ".mjs", ".cjs"])
    ensures JsRuleApplies(path, configDir, dependency) <==>
            !StringCondition(dependency, "url") && InProjectSources(path, configDir)
  {
    PlainJsIsNotTs(path);
    var j := ExtensionOf(path, [".js", ".mjs", ".cjs"]);
    assert EndsWith(path, JsTest[j]);
  }

  /** The `js` rule takes TypeScript wherever it lives, `node_modules` included. */
  lemma TypeScriptAlwaysTaken(path: string, configDir: Directory, dependency: string)
    requires EndsWithAny(path, TsInclude)
    ensures JsRuleApplies(path, configDir, dependency) <==> !StringCondition(dependency, "url")
  {
    var k := ExtensionOf(path, TsInclude);
    assert JsTest[k + 3] == TsInclude[k];
  }

  /**
   * The `jsx` rule's second `include` alternative restates its test, so every
   * `.jsx` and `.tsx` file is taken wherever it lives.
   */
  lemma JsxIncludeIsRedundant(path: string, configDir: Directory, dependency: string)
    ensures JsxRuleApplies(path, configDir, dependency) <==> EndsWithAny(path, JsxTest) && !StringCondition(dependency, "url")
  {
    if EndsWithAny(path, JsxTest) {
      var k := ExtensionOf(path, JsxTest);
      assert JsxInclude[1 - k] == JsxTest[k];
    }
  }

  /** Every extension of the `js` test ends in `s`. */
  lemma JsTestEndsInS(path: string)
    ensures EndsWithAny(path, JsTest) ==> |path| > 0 && path[|path| - 1] == 's'
  {
    if EndsWithAny(path, JsTest) {
      var k := ExtensionOf(path, JsTest);
      assert path[|path| - |JsTest[k]|..][|JsTest[k]| - 1] == path[|path| - 1];
    }
  }

  /** Every extension of the `jsx` test ends in `x`. */
  lemma JsxTestEndsInX(path: string)
    ensures EndsWithAny(path, JsxTest) ==> |path| > 0 && path[|path| - 1] == 'x'
  {
    if EndsWithAny(path, JsxTest) {
      var k := ExtensionOf(path, JsxTest);
      assert path[|path| - |JsxTest[k]|..][|JsxTest[k]| - 1] == path[|path| - 1];
    }
  }

  /** No file is claimed by both the `js` and the `jsx` rule. */
  lemma JsAndJsxRulesExclusive(path: string, configDir: Directory, dependency: string)
    ensures !(JsRuleApplies(path, configDir, dependency) && JsxRuleApplies(path, configDir, dependency))
  {
    JsTestEndsInS(path);
    JsxTestEndsInX(path);
  }

  /** A module requested as a URL is never taken by the `js` or `jsx` rule. */
  lemma UrlDependenciesNotTaken(path: string, configDir: Directory)
    ensures !JsRuleApplies(path, configDir, "url") && !JsxRuleApplies(path, configDir, "url")
  {
  }

  /** A path with no underscore cannot be inside `node_modules`. */
  lemma NoUnderscoreNoNodeModules(path: string)
    requires '_' !in path
    ensures !InNodeModules(path)
  {
    forall i | 0 <= i < |path|
      ensures !NodeModulesAt(path, i)
    {
      if i + 13 < |path| {
        assert path[i + 5] != '_';
        assert path[i + 1..i + 13][4] == path[i + 5];
      }
    }
  }

  /**
   * The directory condition is a plain prefix: a sibling directory whose name
   * merely starts with the configuration directory's name is taken too.
   */
  lemma SiblingDirectoryIsIncluded()
    ensures JsRuleApplies("/app/frontend-legacy/util.js", "/app/frontend", "esm")
  {
    var path := "/app/frontend-legacy/util.js";
    NoUnderscoreNoNodeModules(path);
    assert "esm"[0] != "url"[0];
    assert StartsWith(path, "/app/frontend");
    assert EndsWith(path, JsTest[0]);
  }

  /** The unanchored `mjs` test also matches a `.json` file. */
  lemma JsonMatchesMjsRule()
    ensures RelaxesFullySpecified("src/config.json")
  {
    assert OccursAt("src/config.json", ".js", 10);
  }

  /** Every path ending in `.js` or `.mjs` gets the relaxed resolution of the `mjs` rule. */
  lemma ScriptsRelaxFullySpecified(path: string)
    requires EndsWithAny(path, [".js", ".mjs"])
    ensures RelaxesFullySpecified(path)
  {
    var k := ExtensionOf(path, [".js", ".mjs"]);
    var ext := [".js", ".mjs"][k];
    assert path == path[..|path| - |ext|] + ext;
    ContainsSuffix(path[..|path| - |ext|], ext);
  }

  /**
   * A TypeScript module that is not a `data:` script is handed to swc-loader by
   * one of the script rules exactly when it is not imported as a URL.
   */
  lemma TypeScriptHandedToSwc(path: string, mimetype: string, configDir: Directory, dependency: string)
    requires EndsWithAny(path, TsInclude) && !JsDataUriRuleApplies(mimetype)
    ensures ScriptRuleHandsToSwc(path, mimetype, configDir, dependency) <==> !StringCondition(dependency, "url")
  {
    TypeScriptAlwaysTaken(path, configDir, dependency);
  }

  /** The MIME type condition is a prefix test, so a type with parameters still matches. */
  lemma MimetypeWithCharsetMatches()
    ensures JsDataUriRuleApplies("text/javascript;charset=utf-8")
    ensures !JsDataUriRuleApplies("application/json")
  {
    assert "text/javascript;charset=utf-8" == "text/javascript" + ";charset=utf-8";
    assert "application/json"[13] != "application/javascript"[13];
    assert "application/json"[0] != "text/javascript"[0];
  }
}
