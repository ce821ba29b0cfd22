# rspack configuration of the frontend, modelled in Dafny

The frontend's bundler configuration (`packages/frontend/rspack.config.ts`) is
declarative, but several small rule systems are built into it. This project
models each of them and proves what they decide:

- **CSS modules** (`CssModules`). The `modules.auto(resourcePath, resourceQuery)`
  callback decides whether a stylesheet gets locally scoped class names. The
  top-level `css` rule decides which files reach that callback.
- **`node:` protocol rewrite** (`ProtocolImports`). The `ProtocolImportsPlugin`
  `beforeResolve` hook strips a leading `node:` from a resolve request in place.
  It is modelled as a class with mutable fields and a method that changes only
  `request`.
- **Asset routing** (`AssetRules`). The image, media, font, svg and wasm rules,
  each an ordered `oneOf` list. They are interpreted with rspack's first-match
  semantics, and the category tests are proved pairwise exclusive. Also covered:
  how each strategy delivers a module (emitted file, data URI, JavaScript
  component), and the output names. `AssetScenarios` works through concrete
  imports.
- **Script rules** (`ScriptRules`). The `js`, `jsx`, `js-data-uri` and `mjs`
  rules, with their `include` conditions.
- **Chunk groups** (`ChunkGroups`). The three `splitChunks.cacheGroups` tests
  that put vendor packages into the `lib-axios`, `lib-react` and `lib-router`
  chunks.
- **Mode-dependent settings** (`BuildConfig`). Output names, `publicPath`,
  `devtool`, logging, minimisation, SWC and PostCSS switches, the plugin list
  after `.filter(Boolean)`, and the define-plugin constants. All of them are
  built from NODE_ENV.

Regular expressions are written as the string predicates they amount to.
`Text` holds these predicates:

- An unanchored literal is `Contains`.
- A `$`-anchored alternative is `EndsWithAny`.
- A rspack string condition, such as `dependency: "url"` or a mimetype, is a prefix test, `StringCondition`.
- The `i` flag without `u` is ASCII case folding, `Lower`. Every pattern with
  that flag is plain ASCII.

The `asset` type's data-URI rule (inline when the size is at most `maxSize`)
and url-loader's `limit` are behaviour of rspack and url-loader, not of this
file. `AssetRules.Deliver` states them as those tools document them.

## Model

| member | source | states |
|---|---|---|
| CssModules.Auto | packages/frontend/rspack.config.ts:75-79 | the `modules.auto` callback: false when the path contains `node_modules/`, else true when the query contains `?modules` or the path contains `.module.` |
| CssModules.CssRuleApplies | packages/frontend/rspack.config.ts:288-299 | the stylesheet rule takes a path ending in `.css` whose dependency kind does not start with `url` |
| CssModules.AutoCharacterised | packages/frontend/rspack.config.ts:75-79 | a stylesheet is a CSS module exactly when its path lacks `node_modules/` and either the query contains `?modules` or the path contains `.module.` |
| CssModules.VendorStylesAreGlobal | packages/frontend/rspack.config.ts:76 | a path containing `node_modules/` is never a module, whatever the query |
| CssModules.ModulesQueryForcesModuleMode | packages/frontend/rspack.config.ts:77 | outside `node_modules/`, appending `?modules` to any query forces module mode |
| CssModules.FileNameDecidesWithoutQuery | packages/frontend/rspack.config.ts:78 | without the vendor marker and the query, module mode holds iff the path contains `.module.` |
| CssModules.LongerQueryKeepsModuleMode | packages/frontend/rspack.config.ts:75-79 | extending the query never turns module mode off |
| CssModules.BackslashVendorPathIsModule | packages/frontend/rspack.config.ts:76 | a Windows path `C:\app\node_modules\ui\button.module.css` is treated as a module, because only the forward-slash marker is looked for |
| CssModules.StylesheetsAreNotAssets | packages/frontend/rspack.config.ts:289 | a `.css` path passes none of the asset tests, so the stylesheet rule and the asset rules never share a module |
| CssModules.CssFailsFoldedTests | packages/frontend/rspack.config.ts:289 | a `.css` path fails the case-insensitive image, media and font tests |
| CssModules.CssIsNeitherSvgNorWasm | packages/frontend/rspack.config.ts:289 | a path ending in `.css` ends in neither `.svg` nor `.wasm` |
| CssModules.CssRuleExcludesAssetRules | packages/frontend/rspack.config.ts:288-299 | no module is taken both by the stylesheet rule and by an asset rule |
| ProtocolImports.StripNodeProtocol | packages/frontend/rspack.config.ts:196-198 | a request starting with `node:` becomes the rest after that prefix; any other request is returned unchanged |
| ProtocolImports.StripUndoesPrefix | packages/frontend/rspack.config.ts:196-198 | stripping inverts prepending `node:` |
| ProtocolImports.UnchangedIffNoProtocol | packages/frontend/rspack.config.ts:196 | the rewrite leaves a request alone exactly when it does not start with `node:` |
| ProtocolImports.RemovesExactlyTheScheme | packages/frontend/rspack.config.ts:197 | the result is a suffix of the request, exactly 5 characters shorter when the prefix was there |
| ProtocolImports.SecondRunChangesIff | packages/frontend/rspack.config.ts:196-198 | running the rewrite again changes the request exactly when it began with `node:node:` |
| ProtocolImports.NotIdempotent | packages/frontend/rspack.config.ts:197 | `node:node:fs` becomes `node:fs` and only a second run gives `fs` |
| ProtocolImports.ResolveData.constructor | packages/frontend/rspack.config.ts:195 | a resolve request starts with the given request, context and issuer |
| ProtocolImports.ResolveData.BeforeResolve | packages/frontend/rspack.config.ts:196-198 | the hook replaces `request` by its stripped form, prepending `node:` restores the old request when it had the prefix, and context and issuer are unchanged |
| AssetRules.HasExtensionFolded | packages/frontend/rspack.config.ts:364 | the lower-cased path ends in a dot followed by one of the listed extensions, as the `i`-flagged `$`-anchored alternation does |
| AssetRules.Tests | packages/frontend/rspack.config.ts:362-466 | the category tests: folded extension lists for image (364), media (395) and font (426), a case-sensitive `.svg` suffix (466), and a `.wasm` suffix with a dependency kind starting with `url` (457-458) |
| AssetRules.FirstMatch | packages/frontend/rspack.config.ts:365-391 | a `oneOf` list yields nothing iff no entry's condition holds, and otherwise the strategy of an entry whose condition holds with none before it holding |
| AssetRules.FirstMatchAt | packages/frontend/rspack.config.ts:365-391 | if entry i is the first whose condition holds, the list yields entry i's strategy |
| AssetRules.FirstMatchAppend | packages/frontend/rspack.config.ts:467-564 | a list split in two yields the first part's match if there is one and otherwise the second part's |
| AssetRules.Select | packages/frontend/rspack.config.ts:365-391 | every category's list ends in an entry without a condition, so the list always yields a strategy |
| AssetRules.Route | packages/frontend/rspack.config.ts:362-565 | a module gets no asset strategy iff it passes no category test, and otherwise a category it passes, with that category's first-match strategy |
| AssetRules.ExtensionsDotFree | packages/frontend/rspack.config.ts:364 | the image, media and font extension alternatives contain no dot |
| AssetRules.ImageMediaDisjoint | packages/frontend/rspack.config.ts:395 | no extension is both an image and a media extension |
| AssetRules.ImageFontDisjoint | packages/frontend/rspack.config.ts:426 | no extension is both an image and a font extension |
| AssetRules.MediaFontDisjoint | packages/frontend/rspack.config.ts:426 | no extension is both a media and a font extension |
| AssetRules.SvgWasmNotListed | packages/frontend/rspack.config.ts:364 | `svg` and `wasm` are in none of the folded extension lists |
| AssetRules.FoldedTestsExclusive | packages/frontend/rspack.config.ts:364 | two case-insensitive extension tests over disjoint dot-free lists never both pass |
| AssetRules.FoldedSuffixFailsTest | packages/frontend/rspack.config.ts:364 | a path whose folded extension is outside a list fails that list's test |
| AssetRules.SuffixFailsFoldedTest | packages/frontend/rspack.config.ts:457 | a path ending in a lower-case extension outside a list fails that list's case-insensitive test |
| AssetRules.FoldedTestsIgnoreCase | packages/frontend/rspack.config.ts:395 | the image, media and font tests give the same answer for a path and its lower-cased form |
| AssetRules.SvgExcludesOthers | packages/frontend/rspack.config.ts:466 | a module passing the svg test passes no other category test |
| AssetRules.WasmExcludesOthers | packages/frontend/rspack.config.ts:457-458 | a module passing the wasm test passes no other category test |
| AssetRules.FoldedRulesExclusive | packages/frontend/rspack.config.ts:426 | the image, media and font tests exclude one another |
| AssetRules.SvgOrWasmExcludesFolded | packages/frontend/rspack.config.ts:466 | a path ending in `.svg` or `.wasm` fails the image, media and font tests |
| AssetRules.CategoriesExclusive | packages/frontend/rspack.config.ts:362-466 | at most one category test passes for any module |
| AssetRules.RouteIsOrderFree | packages/frontend/rspack.config.ts:362-565 | a module is routed to category c with strategy s iff it passes c's test and c's list selects s, so the order of the top-level rules does not matter |
| AssetRules.UrlQueryForcesFile | packages/frontend/rspack.config.ts:367-373 | a query containing `__inline=false` or `url` sends any non-wasm asset to an emitted file under its category's name |
| AssetRules.InlineQueryForcesDataUri | packages/frontend/rspack.config.ts:375-378 | otherwise a query containing `inline` inlines the asset as a data URI |
| AssetRules.SizeDecidesOtherwise | packages/frontend/rspack.config.ts:380-390 | otherwise an image, media or font file is a data URI up to 4096 bytes under its category's name |
| AssetRules.SvgReactQueryGivesComponent | packages/frontend/rspack.config.ts:482-513 | with neither url nor inline query, a `react` query makes an svg a component with a default export and no url export |
| AssetRules.SvgFromScriptGivesNamedComponent | packages/frontend/rspack.config.ts:515-551 | otherwise an svg imported from a script or `.mdx` file becomes a named-export component with a url-loader export under 4096 bytes |
| AssetRules.SvgOtherwiseSized | packages/frontend/rspack.config.ts:553-563 | otherwise an svg is a data URI up to 4096 bytes and a file under `static/svg/` beyond |
| AssetRules.WasmIsAlwaysAFile | packages/frontend/rspack.config.ts:456-462 | a `.wasm` module imported as a URL is always emitted as `static/wasm/[hash].module.wasm` |
| AssetRules.Deliver | packages/frontend/rspack.config.ts:381-386 | a resource strategy emits its file, inline gives a data URI, a sized strategy gives a data URI iff the size is at most its limit and otherwise emits its own file name, and a component is a JavaScript module with its export type whose default URL is its url export delivered at the same size, or none without one |
| AssetRules.Place | packages/frontend/rspack.config.ts:362-565 | a module has a placement iff some asset rule routes it, and then it is what its routed strategy delivers at the module size |
| AssetRules.NameSpelledOut | packages/frontend/rspack.config.ts:371 | each category's emitted name is the literal template of its rule |
| AssetRules.EmittedName | packages/frontend/rspack.config.ts:371-563 | the output name template of a category: `static/<category>/` followed by `[name].[contenthash:8][ext]`, `[name].[contenthash:8].svg` for svg, or `[hash].module.wasm` for wasm |
| AssetRules.TableNamesFollowCategory | packages/frontend/rspack.config.ts:371-473 | whichever entry of a category's list applies and whatever the size, the only file it can emit has the category's name |
| AssetRules.EmittedNamesFollowCategory | packages/frontend/rspack.config.ts:362-565 | a routed module's emitted files all carry its category's name template |
| AssetScenarios.UrlBeatsReact | packages/frontend/rspack.config.ts:471 | `icon.svg?url&react` from a script is an emitted file, not a component |
| AssetScenarios.InlineFalseIsAFile | packages/frontend/rspack.config.ts:369 | `?__inline=false` contains `inline` yet routes a png to an emitted file |
| AssetScenarios.InlineLogoAnySize | packages/frontend/rspack.config.ts:479 | `logo.svg?inline` becomes a data URI whatever its size |
| AssetScenarios.LargePhotoIsAFile | packages/frontend/rspack.config.ts:384 | a 10000-byte png without a query is emitted under `static/image/` |
| AssetScenarios.UpperCaseImageIsImage | packages/frontend/rspack.config.ts:364 | `PHOTO.PNG` passes the case-insensitive image test |
| AssetScenarios.UpperCaseSvgIsUnrouted | packages/frontend/rspack.config.ts:466 | `ICON.SVG` passes no asset test, since the svg test is case-sensitive |
| AssetScenarios.WasmImportIsUnrouted | packages/frontend/rspack.config.ts:458 | a `.wasm` file imported as an ES module is not taken by the wasm asset rule |
| AssetScenarios.ScriptSvgUrlIsAFile | packages/frontend/rspack.config.ts:515-551 | a 5000-byte `i.svg` imported from `src/App.tsx` is a named-export component whose default URL is the emitted file `static/svg/[name].[contenthash:8].svg` |
| ScriptRules.RelaxesFullySpecified | packages/frontend/rspack.config.ts:281-286 | the `mjs` rule turns off `fullySpecified` for any path containing `.js` or `.mjs` anywhere |
| ScriptRules.JsRuleApplies | packages/frontend/rspack.config.ts:301-323 | the js rule takes a `.js`/`.mjs`/`.cjs`/`.ts`/`.mts`/`.cts` path whose dependency kind does not start with `url`, when it lies under the config directory outside `node_modules` or is TypeScript |
| ScriptRules.JsxRuleApplies | packages/frontend/rspack.config.ts:325-348 | the jsx rule takes a `.jsx`/`.tsx` path whose dependency kind does not start with `url`, under the same include |
| ScriptRules.JsDataUriRuleApplies | packages/frontend/rspack.config.ts:350-361 | the js-data-uri rule takes a mimetype starting with `text/javascript` or `application/javascript` |
| ScriptRules.ScriptRuleHandsToSwc | packages/frontend/rspack.config.ts:301-361 | one of the js, jsx or js-data-uri rules hands the module to swc-loader |
| ScriptRules.PlainJsIsNotTs | packages/frontend/rspack.config.ts:316 | a `.js`, `.mjs` or `.cjs` path never matches the TypeScript include pattern |
| ScriptRules.PlainJsTakenOnlyFromSources | packages/frontend/rspack.config.ts:302-318 | the js rule takes a plain script iff it is not a URL import, lies under the config directory and is outside `node_modules` |
| ScriptRules.TypeScriptAlwaysTaken | packages/frontend/rspack.config.ts:302-318 | the js rule takes a `.ts`, `.mts` or `.cts` file iff it is not a URL import, wherever it lies |
| ScriptRules.JsxIncludeIsRedundant | packages/frontend/rspack.config.ts:326-342 | the jsx rule applies iff the path ends in `.jsx` or `.tsx` and is not a URL import, so its directory include changes nothing |
| ScriptRules.JsTestEndsInS | packages/frontend/rspack.config.ts:302 | every path passing the js test ends in `s` |
| ScriptRules.JsxTestEndsInX | packages/frontend/rspack.config.ts:326 | every path passing the jsx test ends in `x` |
| ScriptRules.JsAndJsxRulesExclusive | packages/frontend/rspack.config.ts:302-342 | no module is taken by both the js and the jsx rule |
| ScriptRules.UrlDependenciesNotTaken | packages/frontend/rspack.config.ts:304-306 | neither script rule takes a URL import |
| ScriptRules.NoUnderscoreNoNodeModules | packages/frontend/rspack.config.ts:312 | a path without `_` is never inside `node_modules` |
| ScriptRules.SiblingDirectoryIsIncluded | packages/frontend/rspack.config.ts:310 | the string include is a prefix test, so `/app/frontend-legacy/util.js` counts as under `/app/frontend` |
| ScriptRules.JsonMatchesMjsRule | packages/frontend/rspack.config.ts:282 | the unanchored `/\.m?js/` test also matches `src/config.json` |
| ScriptRules.ScriptsRelaxFullySpecified | packages/frontend/rspack.config.ts:281-286 | every path ending in `.js` or `.mjs` has `fullySpecified` turned off |
| ScriptRules.TypeScriptHandedToSwc | packages/frontend/rspack.config.ts:301-361 | a script rule hands a TypeScript module without a script mimetype to swc-loader iff its dependency kind does not start with `url` |
| ScriptRules.MimetypeWithCharsetMatches | packages/frontend/rspack.config.ts:351-353 | the mimetype condition is a prefix test: `text/javascript;charset=utf-8` is taken and `application/json` is not |
| ChunkGroups.InGroup | packages/frontend/rspack.config.ts:573-589 | a path is in lib-axios, lib-react or lib-router when that group's unanchored `node_modules[\\/]…[\\/]` pattern occurs in it |
| ChunkGroups.NameAt | packages/frontend/rspack.config.ts:581 | the directory name read at an index is separator-free, stays within the path, and ends at a separator or the end of the path |
| ChunkGroups.NameAtPrefix | packages/frontend/rspack.config.ts:575 | a separator-free run of characters at an index begins the directory name there |
| ChunkGroups.NameAtDelimited | packages/frontend/rspack.config.ts:581 | a separator-free name followed by a separator is the whole directory name |
| ChunkGroups.ReactClaims | packages/frontend/rspack.config.ts:580-581 | where the lib-react test matches, the name after `node_modules` belongs to lib-react alone |
| ChunkGroups.RouterClaims | packages/frontend/rspack.config.ts:585-586 | where the lib-router test matches, the name after `node_modules` belongs to lib-router alone |
| ChunkGroups.AxiosClaims | packages/frontend/rspack.config.ts:575 | where the lib-axios test matches, the name after `node_modules` starts with `axios` |
| ChunkGroups.MatchIndex | packages/frontend/rspack.config.ts:573-589 | a module in a group has a `node_modules` occurrence whose following name is claimed by that group |
| ChunkGroups.AtMostOneGroup | packages/frontend/rspack.config.ts:573-589 | a path with at most one `node_modules` occurrence followed by a package name some group claims (a single `node_modules`, or a pnpm store path) is in at most one of the three groups |
| ChunkGroups.ChunkNameDetermined | packages/frontend/rspack.config.ts:573-589 | such a path lands in one chunk: every group it is in names the same chunk, and distinct groups name distinct chunks |
| ChunkGroups.AxiosVariantIsGrouped | packages/frontend/rspack.config.ts:575 | `/node_modules/axios-retry/a.js` goes to lib-axios |
| ChunkGroups.BackslashReactIsGrouped | packages/frontend/rspack.config.ts:581 | `C:\node_modules\react\a.js` goes to lib-react |
| ChunkGroups.ReactRouterIsRouter | packages/frontend/rspack.config.ts:586 | `/node_modules/react-router/a.js` goes to lib-router, and its package name claims lib-router rather than lib-react |
| BuildConfig.BuildConfig | packages/frontend/rspack.config.ts:206-691 | the mode-dependent part of the configuration object, built from NODE_ENV |
| BuildConfig.Definitions | packages/frontend/rspack.config.ts:643-653 | the define-plugin table: `MODE` and `process.env.NODE_ENV` are the JSON text of NODE_ENV, DEV and PROD are booleans, and the fixed base URL, asset prefix and runtime constants |
| BuildConfig.PluginEntries | packages/frontend/rspack.config.ts:621-676 | the plugin list as written, with the refresh plugin absent outside development |
| BuildConfig.Compact | packages/frontend/rspack.config.ts:677 | filtering the plugin list never makes it longer |
| BuildConfig.CompactKeepsPresent | packages/frontend/rspack.config.ts:677 | a plugin is in the filtered list iff it is a present entry of the written list |
| BuildConfig.CompactLength | packages/frontend/rspack.config.ts:677 | the filtered list is as long as the written list minus its absent entries |
| BuildConfig.CompactAppend | packages/frontend/rspack.config.ts:677 | filtering distributes over concatenation, so it keeps the order of the plugins it keeps |
| BuildConfig.AbsentCount | packages/frontend/rspack.config.ts:677 | the number of absent entries is zero iff every entry is present |
| BuildConfig.AbsentCountAppend | packages/frontend/rspack.config.ts:677 | absent entries of a concatenation add up |
| BuildConfig.EntriesShape | packages/frontend/rspack.config.ts:621-677 | the written list has seven entries, and only the sixth, the refresh plugin, is absent, exactly outside development |
| BuildConfig.ReactRefreshOnlyInDevelopment | packages/frontend/rspack.config.ts:657 | the React refresh plugin is in the final list iff NODE_ENV is `development` |
| BuildConfig.PluginCount | packages/frontend/rspack.config.ts:621-677 | seven plugins in development and six otherwise |
| BuildConfig.ProtocolImportsFirst | packages/frontend/rspack.config.ts:622 | the protocol rewrite is the first plugin in both modes |
| BuildConfig.DefinitionsRegistered | packages/frontend/rspack.config.ts:623-653 | the define plugin carries the configuration's constant table, and the CSS extract plugin carries the mode's stylesheet names |
| BuildConfig.ModeDecidesSettings | packages/frontend/rspack.config.ts:209-239 | development mode iff NODE_ENV is `development`, and with it the source maps, verbose logging, SWC development and refresh transforms, PostCSS environment and source maps; the devtool is `cheap-module-source-map` in development and off otherwise, and the public path is `/` in development and `./` otherwise |
| BuildConfig.MinimizeOnlyInProduction | packages/frontend/rspack.config.ts:570 | `minimize` is the negation of development, and it holds iff the minimizer list is non-empty |
| BuildConfig.ProductionUnlessDevelopment | packages/frontend/rspack.config.ts:18 | an unset or other NODE_ENV builds in production mode |
| BuildConfig.DevAndProdComplementary | packages/frontend/rspack.config.ts:645-646 | `import.meta.env.DEV` and `PROD` are booleans, one the negation of the other, and DEV holds iff the mode is development |
| BuildConfig.FixedConstantsIgnoreMode | packages/frontend/rspack.config.ts:647-651 | the base URL, asset prefix and runtime constants are equal under any two NODE_ENV values |
| BuildConfig.ModeConstantIsRawEnv | packages/frontend/rspack.config.ts:644 | `MODE` and `process.env.NODE_ENV` are equal, are the JSON text of NODE_ENV when it is set, and are `undefined` exactly when it is unset |
| BuildConfig.TestEnvBuildsProduction | packages/frontend/rspack.config.ts:644 | with NODE_ENV `test` the build is production while `MODE` reads `test` |
| BuildConfig.DevelopmentNamesUnhashed | packages/frontend/rspack.config.ts:233-238 | no development script or stylesheet name asks for a hash |
| BuildConfig.JsNameHashed | packages/frontend/rspack.config.ts:233-235 | the production entry script name is the development one with `.[contenthash:8]` before the extension |
| BuildConfig.JsChunkNameHashed | packages/frontend/rspack.config.ts:236-238 | the same for async script chunks |
| BuildConfig.CssNameHashed | packages/frontend/rspack.config.ts:624-626 | the same for entry stylesheets |
| BuildConfig.CssChunkNameHashed | packages/frontend/rspack.config.ts:627-629 | the same for async stylesheets |
| BuildConfig.ProductionNamesInsertHash | packages/frontend/rspack.config.ts:233-238 | the configured script names are the development ones in development and have the hash inserted before the extension otherwise |
| BuildConfig.AssetNamesAlwaysHashed | packages/frontend/rspack.config.ts:242-243 | the asset and WebAssembly names ask for a hash in both modes |
| Text.Lower | packages/frontend/rspack.config.ts:364 | case folding keeps the length and folds exactly the ASCII capitals |
| Text.DelimitedSuffixUnique | packages/frontend/rspack.config.ts:364 | two dot-free extensions that both end a path after a dot are equal |

## Left out

- The loaders and plugins themselves are opaque here. This covers swc-loader, css-loader, the typed-CSS-modules loader, lightningcss, postcss, svgr, url-loader, the minimizers, HtmlRspackPlugin, the progress plugin and TsCheckerRspackPlugin. The model records only which of them a module or a mode selects.
- The content hash (xxhash64) and the expansion of name templates such as `[name]`, `[contenthash:8]` and `[ext]` are rspack's work. Names are kept as the template strings the configuration writes.
- The dev server, watch options, performance hints, entry, `node`, `target` and `experiments` settings are constants or I/O, so they are left out.
- The `node-stdlib-browser` fallback table maps module names onto library values and is left out.
- The `resolve.alias`, `extensions` and `extensionAlias` lookups are rspack's resolver.
- All three cache groups have priority 0, and rspack breaks ties on its own; the model proves instead that at most one group can match a path with at most one `node_modules` occurrence followed by a claimed package name.
- The define plugin's textual substitution into source code is not modelled. Its table is.
- `mimetype` detection for the `js-data-uri` rule is rspack's. The mimetype is a parameter.
- `AssetRules.Deliver` takes the module size as a parameter. The bundler measures it.
- CssModules.Auto: the same callback is passed to two loaders (lines 75-79 and 93-97). It is modelled once.
- ChunkGroups.AtMostOneGroup: stated for paths where at most one `node_modules` occurrence is followed by a claimed package name. A path that nests one claimed package inside another can satisfy two tests.
- The `[\\/]` separators and the JavaScript `.` are modelled exactly. Line terminators are `\n`, `\r`, U+2028 and U+2029.
- ScriptRules.ScriptRuleHandsToSwc: covers the script rules only. The svg component entries (lines 485-487 and 518-520) also run swc-loader on svgr's output; the model records them as `AssetRules.Component`.
- The swc-loader options' own `exclude: ["node_modules"]` (line 61) is applied by the loader, after a rule has handed it a module, and is not modelled. The script-rule lemmas say which modules a rule hands over, not which ones SWC then transforms.
