/**
 * The asset rules of `module.rules`: the image, media, font and svg rules, each
 * a test on the resource path followed by an ordered `oneOf` list, and the
 * wasm rule. Within a `oneOf` list only the first entry whose condition holds
 * applies, so precedence is declaration order.
 */
module AssetRules {
  import opened Wrappers
  import opened Text

  /** What a rule condition can see of a module: path, query, issuer path, dependency kind, byte size. */
  datatype Request = Request(path: string, query: string, issuer: string, dependency: string, size: nat)

  datatype Category = Image | Media | Font | Wasm | Svg

  /** How svgr exports the component: `exportType: "default"` or `"named"`. */
  datatype ExportType = DefaultExport | NamedExport

  /** What one entry of a rule does with the module. */
  datatype Strategy =
      /** `type: "asset/resource"`: always a separate file. */
    | ExternalFile(filename: string)
      /** `type: "asset/inline"`: always a data URI. */
    | InlineDataUri
      /** `type: "asset"` with `dataUrlCondition.maxSize`: a data URI when small enough, else a file. */
    | DataUriUnder(maxSize: nat, filename: string)
      /**
       * `type: "javascript/auto"` through svgr and swc: a component module; with
       * url-loader behind svgr the module's default export is the asset's URL,
       * chosen the way `urlExport` says.
       */
    | Component(exportType: ExportType, urlExport: Option<Strategy>)

  /** The condition of a `oneOf` entry. */
  datatype Condition =
    | Always
      /** `resourceQuery: /(a|b)/`: the query contains one of the needles. */
    | QueryContainsAny(needles: seq<string>)
      /** `issuer: [/\.(?:…)$/, …]`: the issuer path ends with one of the suffixes. */
    | IssuerEndsWithAny(suffixes: seq<string>)

  datatype Entry = Entry(when: Condition, strategy: Strategy)

  predicate Holds(c: Condition, req: Request) {
    match c
    case Always => true
    case QueryContainsAny(needles) => ContainsAny(req.query, needles)
    case IssuerEndsWithAny(suffixes) => EndsWithAny(req.issuer, suffixes)
  }

  /** Entry `i` holds and no entry before it does. */
  predicate FirstHoldingAt(entries: seq<Entry>, req: Request, i: int) {
    && 0 <= i < |entries|
    && Holds(entries[i].when, req)
    && forall j :: 0 <= j < i ==> !Holds(entries[j].when, req)
  }

  /** The `oneOf` interpreter: the strategy of the first entry whose condition holds. */
  function FirstMatch(entries: seq<Entry>, req: Request): (r: Option<Strategy>)
    ensures r.None? <==> forall i :: 0 <= i < |entries| ==> !Holds(entries[i].when, req)
    ensures r.Some? ==> exists i :: FirstHoldingAt(entries, req, i) && r.value == entries[i].strategy
  {
    if |entries| == 0 then None
    else if Holds(entries[0].when, req) then
      assert FirstHoldingAt(entries, req, 0);
      Some(entries[0].strategy)
    else
      var r := FirstMatch(entries[1..], req);
      assert forall i :: 1 <= i < |entries| ==> entries[i] == entries[1..][i - 1];
      if r.Some? then
        var i :| FirstHoldingAt(entries[1..], req, i) && r.value == entries[1..][i].strategy;
        assert FirstHoldingAt(entries, req, i + 1);
        r
      else
        r
  }

  /** Whatever the entries are, the first one that holds decides, and later ones are never consulted. */
  lemma {:induction false} FirstMatchAt(entries: seq<Entry>, req: Request, i: int)
    requires FirstHoldingAt(entries, req, i)
    ensures FirstMatch(entries, req) == Some(entries[i].strategy)
  {
    if i > 0 {
      assert !Holds(entries[0].when, req);
      assert FirstHoldingAt(entries[1..], req, i - 1);
      FirstMatchAt(entries[1..], req, i - 1);
    }
  }

  /** Entries declared after a list only matter when nothing in the list matched. */
  lemma {:induction false} FirstMatchAppend(first: seq<Entry>, rest: seq<Entry>, req: Request)
    ensures FirstMatch(first + rest, req) ==
              if FirstMatch(first, req).Some? then FirstMatch(first, req) else FirstMatch(rest, req)
  {
    if |first| > 0 {
      assert (first + rest)[0] == first[0];
      assert (first + rest)[1..] == first[1..] + rest;
      FirstMatchAppend(first[1..], rest, req);
    } else {
      assert first + rest == rest;
    }
  }

  // ----- The tables, as declared ---------------------------------------------------------------

  /** `resourceQuery: /(__inline=false|url)/` */
  const UrlQuery: Condition := QueryContainsAny(["__inline=false", "url"])
  /** `resourceQuery: /inline/` */
  const InlineQuery: Condition := QueryContainsAny(["inline"])
  /** `resourceQuery: /react/` */
  const ReactQuery: Condition := QueryContainsAny(["react"])
  /** `issuer: [/\.(?:js|jsx|mjs|cjs|ts|tsx|mts|cts)$/, /\.mdx$/]` */
  const ScriptIssuer: Condition :=
    IssuerEndsWithAny([".js", ".jsx", ".mjs", ".cjs", ".ts", ".tsx", ".mts", ".cts", ".mdx"])

  /** `dataUrlCondition.maxSize` of every `asset` entry and url-loader's `limit`. */
  const DataUrlMaxSize: nat := 4096

  const ImageOneOf: seq<Entry> := [
    Entry(UrlQuery, ExternalFile("static/image/[name].[contenthash:8][ext]")),
    Entry(InlineQuery, InlineDataUri),
    Entry(Always, DataUriUnder(DataUrlMaxSize, "static/image/[name].[contenthash:8][ext]"))
  ]

  const MediaOneOf: seq<Entry> := [
    Entry(UrlQuery, ExternalFile("static/media/[name].[contenthash:8][ext]")),
    Entry(InlineQuery, InlineDataUri),
    Entry(Always, DataUriUnder(DataUrlMaxSize, "static/media/[name].[contenthash:8][ext]"))
  ]

  const FontOneOf: seq<Entry> := [
    Entry(UrlQuery, ExternalFile("static/font/[name].[contenthash:8][ext]")),
    Entry(InlineQuery, InlineDataUri),
    Entry(Always, DataUriUnder(DataUrlMaxSize, "static/font/[name].[contenthash:8][ext]"))
  ]

  const SvgOneOf: seq<Entry> := [
    Entry(UrlQuery, ExternalFile("static/svg/[name].[contenthash:8].svg")),
    Entry(InlineQuery, InlineDataUri),
    Entry(ReactQuery, Component(DefaultExport, None)),
    Entry(ScriptIssuer,
          Component(NamedExport, Some(DataUriUnder(DataUrlMaxSize, "static/svg/[name].[contenthash:8].svg")))),
    Entry(Always, DataUriUnder(DataUrlMaxSize, "static/svg/[name].[contenthash:8].svg"))
  ]

  /** The wasm rule has no `oneOf`; its single `asset/resource` setting is a one-entry list. */
  const WasmOneOf: seq<Entry> := [
    Entry(Always, ExternalFile("static/wasm/[hash].module.wasm"))
  ]

  function OneOf(c: Category): seq<Entry> {
    match c
    case Image => ImageOneOf
    case Media => MediaOneOf
    case Font => FontOneOf
    case Wasm => WasmOneOf
    case Svg => SvgOneOf
  }

  // ----- Rule tests ----------------------------------------------------------------------------

  const ImageExtensions: seq<string> :=
    ["png", "jpg", "jpeg", "pjpeg", "pjp", "gif", "bmp", "webp", "ico", "apng", "avif", "tif", "tiff", "jfif"]
  const MediaExtensions: seq<string> := ["mp4", "webm", "ogg", "mov", "mp3", "wav", "flac", "aac", "m4a", "opus"]
  const FontExtensions: seq<string> := ["woff", "woff2", "eot", "ttf", "otf", "ttc"]

  /** A case-insensitive test `/\.(?:e1|e2|…)$/i`. */
  predicate HasExtensionFolded(path: string, exts: seq<string>) {
    EndsWithAny(Lower(path), Dotted(exts))
  }

  /** The `test` (and, for wasm, `dependency`) condition of each asset rule. */
  predicate Tests(c: Category, req: Request) {
    match c
    case Image => HasExtensionFolded(req.path, ImageExtensions)
    case Media => HasExtensionFolded(req.path, MediaExtensions)
    case Font => HasExtensionFolded(req.path, FontExtensions)
    case Wasm => EndsWith(req.path, ".wasm") && StringCondition(req.dependency, "url")
    case Svg => EndsWith(req.path, ".svg")
  }

  /** Every rule ends in an entry without a condition, so a module that passes the test gets a strategy. */
  function Select(c: Category, req: Request): (s: Strategy)
    ensures FirstMatch(OneOf(c), req) == Some(s)
  {
    var entries := OneOf(c);
    assert Holds(entries[|entries| - 1].when, req);
    FirstMatch(entries, req).value
  }

  datatype Routed = Routed(category: Category, strategy: Strategy)

  /**
   * The asset rule that applies to a module and what it does. rspack applies
   * every rule whose test passes; the tests exclude one another
   * (CategoriesExclusive), so taking them in declaration order loses nothing.
   */
  function Route(req: Request): (r: Option<Routed>)
    ensures r.None? <==> forall c :: !Tests(c, req)
    ensures r.Some? ==> Tests(r.value.category, req) && r.value.strategy == Select(r.value.category, req)
  {
    if Tests(Image, req) then Some(Routed(Image, Select(Image, req)))
    else if Tests(Media, req) then Some(Routed(Media, Select(Media, req)))
    else if Tests(Font, req) then Some(Routed(Font, Select(Font, req)))
    else if Tests(Wasm, req) then Some(Routed(Wasm, Select(Wasm, req)))
    else if Tests(Svg, req) then Some(Routed(Svg, Select(Svg, req)))
    else None
  }

  // ----- The rule tests exclude one another ---------------------------------------------------

  predicate DotFree(exts: seq<string>) {
    forall k :: 0 <= k < |exts| ==> '.' !in exts[k]
  }

  /** No extension of `exts1` appears in `exts2`. */
  predicate Disjoint(exts1: seq<string>, exts2: seq<string>) {
    forall k :: 0 <= k < |exts1| ==> exts1[k] !in exts2
  }

  lemma ExtensionsDotFree()
    ensures DotFree(ImageExtensions) && DotFree(MediaExtensions) && DotFree(FontExtensions)
  {
  }

  lemma ImageMediaDisjoint()
    ensures Disjoint(ImageExtensions, MediaExtensions)
  {
  }

  lemma ImageFontDisjoint()
    ensures Disjoint(ImageExtensions, FontExtensions)
  {
  }

  lemma MediaFontDisjoint()
    ensures Disjoint(MediaExtensions, FontExtensions)
  {
  }

  lemma SvgWasmNotListed()
    ensures "svg" !in ImageExtensions && "svg" !in MediaExtensions && "svg" !in FontExtensions
    ensures "wasm" !in ImageExtensions && "wasm" !in MediaExtensions && "wasm" !in FontExtensions
  {
  }

  /** Which extension of the list a folded test matched. */
  lemma FoldedExtensionWitness(path: string, exts: seq<string>) returns (k: nat)
    requires HasExtensionFolded(path, exts)
    ensures k < |exts| && EndsWith(Lower(path), ['.'] + exts[k])
  {
    k :| 0 <= k < |Dotted(exts)| && EndsWith(Lower(path), Dotted(exts)[k]);
  }

  /** Two folded tests over lists with no extension in common never both pass. */
  lemma FoldedTestsExclusive(path: string, exts1: seq<string>, exts2: seq<string>)
    requires DotFree(exts1) && DotFree(exts2) && Disjoint(exts1, exts2)
    ensures !(HasExtensionFolded(path, exts1) && HasExtensionFolded(path, exts2))
  {
    if HasExtensionFolded(path, exts1) && HasExtensionFolded(path, exts2) {
      var k1 := FoldedExtensionWitness(path, exts1);
      var k2 := FoldedExtensionWitness(path, exts2);
      assert exts2[k2] in exts2;
      DelimitedSuffixUnique(Lower(path), '.', exts1[k1], exts2[k2]);
    }
  }

  /** A path whose folded form ends in an extension outside the list fails the folded test. */
  lemma FoldedSuffixFailsTest(path: string, ext: string, exts: seq<string>)
    requires DotFree(exts) && '.' !in ext && ext !in exts
    requires EndsWith(Lower(path), ['.'] + ext)
    ensures !HasExtensionFolded(path, exts)
  {
    if HasExtensionFolded(path, exts) {
      var k := FoldedExtensionWitness(path, exts);
      assert exts[k] in exts;
      DelimitedSuffixUnique(Lower(path), '.', ext, exts[k]);
    }
  }

  /** The same for a path that ends, case and all, in a lower-case extension outside the list. */
  lemma SuffixFailsFoldedTest(path: string, ext: string, exts: seq<string>)
    requires DotFree(exts) && '.' !in ext && ext !in exts
    requires forall i :: 0 <= i < |ext| ==> !('A' <= ext[i] <= 'Z')
    requires EndsWith(path, ['.'] + ext)
    ensures !HasExtensionFolded(path, exts)
  {
    EndsWithLower(path, ['.'] + ext);
    LowerOfLowerCase(['.'] + ext);
    FoldedSuffixFailsTest(path, ext, exts);
  }

  /** The image, media and font tests see only the folded path. */
  lemma FoldedTestsIgnoreCase(req: Request, c: Category)
    requires c in {Image, Media, Font}
    ensures Tests(c, req) == Tests(c, req.(path := Lower(req.path)))
  {
    LowerIdempotent(req.path);
  }

  /** At most one asset rule's test passes for any module. */
  lemma CategoriesExclusive(req: Request, c1: Category, c2: Category)
    requires Tests(c1, req) && Tests(c2, req)
    ensures c1 == c2
  {
    if c1 != c2 {
      if c1 == Svg || c2 == Svg {
        SvgExcludesOthers(req);
      } else if c1 == Wasm || c2 == Wasm {
        WasmExcludesOthers(req);
      } else {
        FoldedRulesExclusive(req, c1, c2);
      }
    }
  }

  /** A module passing the svg test passes no other asset rule's test. */
  lemma SvgExcludesOthers(req: Request)
    requires Tests(Svg, req)
    ensures !Tests(Image, req) && !Tests(Media, req) && !Tests(Font, req) && !Tests(Wasm, req)
  {
    assert EndsWith(req.path, ['.'] + "svg");
    SvgOrWasmExcludesFolded(req.path, "svg");
    if EndsWith(req.path, ".wasm") {
      DelimitedSuffixUnique(req.path, '.', "wasm", "svg");
    }
  }

  /** A module passing the wasm test passes no other asset rule's test. */
  lemma WasmExcludesOthers(req: Request)
    requires Tests(Wasm, req)
    ensures !Tests(Image, req) && !Tests(Media, req) && !Tests(Font, req) && !Tests(Svg, req)
  {
    assert EndsWith(req.path, ['.'] + "wasm");
    SvgOrWasmExcludesFolded(req.path, "wasm");
    if EndsWith(req.path, ".svg") {
      DelimitedSuffixUnique(req.path, '.', "wasm", "svg");
    }
  }

  /** The image, media and font tests exclude one another. */
  lemma FoldedRulesExclusive(req: Request, c1: Category, c2: Category)
    requires c1 in {Image, Media, Font} && c2 in {Image, Media, Font} && c1 != c2
    ensures !(Tests(c1, req) && Tests(c2, req))
  {
    ExtensionsDotFree();
    if c1 != Font && c2 != Font {
      ImageMediaDisjoint();
      FoldedTestsExclusive(req.path, ImageExtensions, MediaExtensions);
    } else if c1 != Media && c2 != Media {
      ImageFontDisjoint();
      FoldedTestsExclusive(req.path, ImageExtensions, FontExtensions);
    } else {
      MediaFontDisjoint();
      FoldedTestsExclusive(req.path, MediaExtensions, FontExtensions);
    }
  }

  /** A path ending in `.svg` or `.wasm` passes none of the folded tests. */
  lemma SvgOrWasmExcludesFolded(path: string, ext: string)
    requires ext == "svg" || ext == "wasm"
    requires EndsWith(path, ['.'] + ext)
    ensures !HasExtensionFolded(path, ImageExtensions)
    ensures !HasExtensionFolded(path, MediaExtensions)
    ensures !HasExtensionFolded(path, FontExtensions)
  {
    ExtensionsDotFree();
    SvgWasmNotListed();
    SuffixFailsFoldedTest(path, ext, ImageExtensions);
    SuffixFailsFoldedTest(path, ext, MediaExtensions);
    SuffixFailsFoldedTest(path, ext, FontExtensions);
  }

  /** The rule that applies is the one whose test passes, whatever the order the rules are declared in. */
  lemma RouteIsOrderFree(req: Request, c: Category, s: Strategy)
    ensures Route(req) == Some(Routed(c, s)) <==> Tests(c, req) && s == Select(c, req)
  {
    if Tests(c, req) {
      CategoriesExclusive(req, c, Route(req).value.category);
    }
  }

  // ----- Precedence inside the oneOf lists ----------------------------------------------------

  /** `?url`, `?__inline=false` (or any query containing either) always yields a separate file. */
  lemma UrlQueryForcesFile(req: Request, c: Category)
    requires c != Wasm && Tests(c, req) && Holds(UrlQuery, req)
    ensures Route(req) == Some(Routed(c, ExternalFile(EmittedName(c))))
  {
    NameSpelledOut(c);
    FirstMatchAt(OneOf(c), req, 0);
    RouteIsOrderFree(req, c, ExternalFile(EmittedName(c)));
  }

  /** Otherwise a query containing `inline` yields a data URI whatever the size. */
  lemma InlineQueryForcesDataUri(req: Request, c: Category)
    requires c != Wasm && Tests(c, req) && !Holds(UrlQuery, req) && Holds(InlineQuery, req)
    ensures Route(req) == Some(Routed(c, InlineDataUri))
  {
    NameSpelledOut(c);
    assert FirstHoldingAt(OneOf(c), req, 1);
    FirstMatchAt(OneOf(c), req, 1);
    RouteIsOrderFree(req, c, InlineDataUri);
  }

  /** Otherwise images, media and fonts are sized against 4096 bytes. */
  lemma SizeDecidesOtherwise(req: Request, c: Category)
    requires c in {Image, Media, Font} && Tests(c, req)
    requires !Holds(UrlQuery, req) && !Holds(InlineQuery, req)
    ensures Route(req) == Some(Routed(c, DataUriUnder(DataUrlMaxSize, EmittedName(c))))
  {
    NameSpelledOut(c);
    assert FirstHoldingAt(OneOf(c), req, 2);
    FirstMatchAt(OneOf(c), req, 2);
    RouteIsOrderFree(req, c, DataUriUnder(DataUrlMaxSize, EmittedName(c)));
  }

  /** Otherwise an svg with a `react` query becomes a component exported as default. */
  lemma SvgReactQueryGivesComponent(req: Request)
    requires Tests(Svg, req) && !Holds(UrlQuery, req) && !Holds(InlineQuery, req) && Holds(ReactQuery, req)
    ensures Route(req) == Some(Routed(Svg, Component(DefaultExport, None)))
  {
    NameSpelledOut(Svg);
    assert FirstHoldingAt(SvgOneOf, req, 2);
    FirstMatchAt(SvgOneOf, req, 2);
    RouteIsOrderFree(req, Svg, Component(DefaultExport, None));
  }

  /**
   * Otherwise an svg imported from a script or MDX file becomes a component under a
   * named export, with the asset's URL (a data URI up to 4096 bytes) as default export.
   */
  lemma SvgFromScriptGivesNamedComponent(req: Request)
    requires Tests(Svg, req) && !Holds(UrlQuery, req) && !Holds(InlineQuery, req) && !Holds(ReactQuery, req)
    requires Holds(ScriptIssuer, req)
    ensures Route(req) == Some(Routed(Svg, Component(NamedExport, Some(DataUriUnder(DataUrlMaxSize, EmittedName(Svg))))))
  {
    NameSpelledOut(Svg);
    assert FirstHoldingAt(SvgOneOf, req, 3);
    FirstMatchAt(SvgOneOf, req, 3);
    RouteIsOrderFree(req, Svg, Component(NamedExport, Some(DataUriUnder(DataUrlMaxSize, EmittedName(Svg)))));
  }

  /** Otherwise (say, an svg referenced from a stylesheet) the 4096-byte asset rule applies. */
  lemma SvgOtherwiseSized(req: Request)
    requires Tests(Svg, req) && !Holds(UrlQuery, req) && !Holds(InlineQuery, req) && !Holds(ReactQuery, req)
    requires !Holds(ScriptIssuer, req)
    ensures Route(req) == Some(Routed(Svg, DataUriUnder(DataUrlMaxSize, EmittedName(Svg))))
  {
    NameSpelledOut(Svg);
    assert FirstHoldingAt(SvgOneOf, req, 4);
    FirstMatchAt(SvgOneOf, req, 4);
    RouteIsOrderFree(req, Svg, DataUriUnder(DataUrlMaxSize, EmittedName(Svg)));
  }

  /** A wasm module reached through `new URL(...)` is always a separate, hashed file. */
  lemma WasmIsAlwaysAFile(req: Request)
    requires Tests(Wasm, req)
    ensures Route(req) == Some(Routed(Wasm, ExternalFile(EmittedName(Wasm))))
  {
    NameSpelledOut(Wasm);
    FirstMatchAt(WasmOneOf, req, 0);
    RouteIsOrderFree(req, Wasm, ExternalFile(EmittedName(Wasm)));
  }

  // ----- Where the bytes end up ---------------------------------------------------------------

  /** What the bundle holds for a module: a file, a data URI, or a JavaScript module. */
  datatype Placement =
    | EmittedFile(filename: string)
    | DataUri
    | JsModule(exportType: ExportType, defaultUrl: Option<Placement>)

  /**
   * The placement a strategy gives a module of `size` bytes. rspack's `asset`
   * type and url-loader's `limit` both inline a module of at most the limit.
   */
  function Deliver(s: Strategy, size: nat): (p: Placement)
    ensures s.ExternalFile? ==> p == EmittedFile(s.filename)
    ensures s.InlineDataUri? ==> p == DataUri
    ensures s.DataUriUnder? ==> (p == DataUri <==> size <= s.maxSize)
    ensures s.DataUriUnder? ==> (p.EmittedFile? <==> size > s.maxSize)
    ensures s.DataUriUnder? && size > s.maxSize ==> p == EmittedFile(s.filename)
    ensures s.Component? ==> p.JsModule? && p.exportType == s.exportType
    ensures s.Component? ==>
              p.defaultUrl == if s.urlExport.Some? then Some(Deliver(s.urlExport.value, size)) else None
  {
    match s
    case ExternalFile(f) => EmittedFile(f)
    case InlineDataUri => DataUri
    case DataUriUnder(maxSize, f) => if size <= maxSize then DataUri else EmittedFile(f)
    case Component(exportType, urlExport) =>
      JsModule(exportType, if urlExport.Some? then Some(Deliver(urlExport.value, size)) else None)
  }

  /** The placement of a module that an asset rule handles. */
  function Place(req: Request): (r: Option<Placement>)
    ensures r.None? <==> Route(req).None?
  {
    match Route(req)
    case None => None
    case Some(routed) => Some(Deliver(routed.strategy, req.size))
  }

  // ----- File names ---------------------------------------------------------------------------

  function CategoryDir(c: Category): string {
    match c
    case Image => "image"
    case Media => "media"
    case Font => "font"
    case Wasm => "wasm"
    case Svg => "svg"
  }

  /**
   * `static/<category>/[name].[contenthash:8][ext]`, except that svg files always
   * get `.svg` and wasm files are named by the module hash alone.
   */
  function EmittedName(c: Category): string {
    "static/" + CategoryDir(c) + "/" +
    match c
    case Wasm => "[hash].module.wasm"
    case Svg => "[name].[contenthash:8].svg"
    case _ => "[name].[contenthash:8][ext]"
  }

  /** The name pattern of each category, spelled out as the rules write it. */
  lemma ImageName() ensures EmittedName(Image) == "static/image/[name].[contenthash:8][ext]" {}
  lemma MediaName() ensures EmittedName(Media) == "static/media/[name].[contenthash:8][ext]" {}
  lemma FontName() ensures EmittedName(Font) == "static/font/[name].[contenthash:8][ext]" {}
  lemma SvgName() ensures EmittedName(Svg) == "static/svg/[name].[contenthash:8].svg" {}
  lemma WasmName() ensures EmittedName(Wasm) == "static/wasm/[hash].module.wasm" {}

  lemma NameSpelledOut(c: Category)
    ensures c == Image ==> EmittedName(c) == "static/image/[name].[contenthash:8][ext]"
    ensures c == Media ==> EmittedName(c) == "static/media/[name].[contenthash:8][ext]"
    ensures c == Font ==> EmittedName(c) == "static/font/[name].[contenthash:8][ext]"
    ensures c == Svg ==> EmittedName(c) == "static/svg/[name].[contenthash:8].svg"
    ensures c == Wasm ==> EmittedName(c) == "static/wasm/[hash].module.wasm"
  {
    match c
    case Image => ImageName();
    case Media => MediaName();
    case Font => FontName();
    case Svg => SvgName();
    case Wasm => WasmName();
  }

  /** Every file name a placement mentions. */
  function FileNames(p: Placement): set<string> {
    match p
    case EmittedFile(f) => {f}
    case DataUri => {}
    case JsModule(_, url) => if url.Some? then FileNames(url.value) else {}
  }

  /** Every file name used in a rule's entries is that category's name pattern. */
  lemma TableNamesFollowCategory(c: Category, i: int, size: nat)
    requires 0 <= i < |OneOf(c)|
    ensures FileNames(Deliver(OneOf(c)[i].strategy, size)) <= {EmittedName(c)}
  {
    NameSpelledOut(c);
  }

  /** Whatever a module's query, issuer and size, a file it is emitted as follows its category's pattern. */
  lemma EmittedNamesFollowCategory(req: Request)
    requires Route(req).Some?
    ensures FileNames(Place(req).value) <= {EmittedName(Route(req).value.category)}
  {
    var c := Route(req).value.category;
    var i :| FirstHoldingAt(OneOf(c), req, i) && Select(c, req) == OneOf(c)[i].strategy;
    TableNamesFollowCategory(c, i, req.size);
  }
}
