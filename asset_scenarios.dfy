/** Particular modules pushed through the asset rules, showing their precedence at work. */
module AssetScenarios {
  import opened Wrappers
  import opened Text
  import opened AssetRules

  /** `icon.svg?url&react` is caught by the url entry before the react entry is consulted. */
  lemma UrlBeatsReact(size: nat)
    ensures Route(Request("src/icon.svg", "?url&react", "src/App.tsx", "esm", size)) ==
            Some(Routed(Svg, ExternalFile("static/svg/[name].[contenthash:8].svg")))
  {
    var req := Request("src/icon.svg", "?url&react", "src/App.tsx", "esm", size);
    assert OccursAt(req.query, "url", 1);
    assert Holds(UrlQuery, req) by { assert UrlQuery.needles[1] == "url"; }
    assert OccursAt(req.query, "react", 5);
    UrlQueryForcesFile(req, Svg);
    SvgName();
  }

  /** `?__inline=false` contains `inline`, yet the earlier url entry makes it a file. */
  lemma InlineFalseIsAFile(size: nat)
    ensures Contains("?__inline=false", "inline")
    ensures Route(Request("a/photo.png", "?__inline=false", "", "esm", size)) ==
            Some(Routed(Image, ExternalFile("static/image/[name].[contenthash:8][ext]")))
  {
    var req := Request("a/photo.png", "?__inline=false", "", "esm", size);
    assert OccursAt(req.query, "inline", 3);
    assert Holds(UrlQuery, req) by {
      assert OccursAt(req.query, "__inline=false", 1);
      assert UrlQuery.needles[0] == "__inline=false";
    }
    assert Tests(Image, req) by {
      assert Lower(req.path) == req.path;
      assert EndsWith(Lower(req.path), Dotted(ImageExtensions)[0]);
    }
    UrlQueryForcesFile(req, Image);
    ImageName();
  }

  /** `logo.svg?inline` becomes a data URI whatever its size. */
  lemma InlineLogoAnySize(size: nat)
    ensures Place(Request("logo.svg", "?inline", "src/App.tsx", "esm", size)) == Some(DataUri)
  {
    var req := Request("logo.svg", "?inline", "src/App.tsx", "esm", size);
    assert !Holds(UrlQuery, req) by {
      MissingCharNotContained(req.query, "url", 'u');
      MissingCharNotContained(req.query, "__inline=false", '_');
    }
    assert Holds(InlineQuery, req) by {
      assert OccursAt(req.query, "inline", 1);
      assert InlineQuery.needles[0] == "inline";
    }
    assert Tests(Svg, req);
    InlineQueryForcesDataUri(req, Svg);
  }

  /** A 10000-byte `photo.png` without a query exceeds 4096 bytes and is emitted as a hashed file. */
  lemma LargePhotoIsAFile()
    ensures Place(Request("src/photo.png", "", "src/App.tsx", "esm", 10000)) ==
            Some(EmittedFile("static/image/[name].[contenthash:8][ext]"))
  {
    var req := Request("src/photo.png", "", "src/App.tsx", "esm", 10000);
    assert Lower(req.path) == req.path;
    assert EndsWith(Lower(req.path), Dotted(ImageExtensions)[0]);
    assert !Holds(UrlQuery, req) && !Holds(InlineQuery, req);
    SizeDecidesOtherwise(req, Image);
    ImageName();
  }

  /** The image test ignores case: `PHOTO.PNG` is an image. */
  lemma UpperCaseImageIsImage(size: nat)
    ensures Route(Request("PHOTO.PNG", "", "", "esm", size)).Some?
    ensures Route(Request("PHOTO.PNG", "", "", "esm", size)).value.category == Image
  {
    var req := Request("PHOTO.PNG", "", "", "esm", size);
    assert Lower(req.path) == "photo.png";
    assert EndsWith(Lower(req.path), Dotted(ImageExtensions)[0]);
    assert Tests(Image, req);
  }

  /** The svg test does not ignore case: `ICON.SVG` matches no asset rule at all. */
  lemma UpperCaseSvgIsUnrouted(size: nat)
    ensures Route(Request("ICON.SVG", "", "", "esm", size)) == None
  {
    var req := Request("ICON.SVG", "", "", "esm", size);
    assert Lower(req.path) == "icon.svg";
    assert EndsWith(Lower(req.path), ['.'] + "svg");
    ExtensionsDotFree();
    SvgWasmNotListed();
    FoldedSuffixFailsTest(req.path, "svg", ImageExtensions);
    FoldedSuffixFailsTest(req.path, "svg", MediaExtensions);
    FoldedSuffixFailsTest(req.path, "svg", FontExtensions);
    assert req.path[|req.path| - 1] == 'G';
    assert !Tests(Svg, req);
  }

  /** A wasm module imported as code (dependency kind `esm`) is not an asset. */
  lemma WasmImportIsUnrouted(size: nat)
    ensures Route(Request("pkg/lib_bg.wasm", "", "src/index.ts", "esm", size)) == None
  {
    var req := Request("pkg/lib_bg.wasm", "", "src/index.ts", "esm", size);
    assert EndsWith(req.path, ['.'] + "wasm");
    SvgOrWasmExcludesFolded(req.path, "wasm");
    assert req.path[|req.path| - 1] == 'm';
    assert !Tests(Svg, req);
    assert "esm"[0] != "url"[0];
    assert !Tests(Wasm, req);
  }

  /**
   * A 5000-byte `i.svg` imported from `src/App.tsx` is a React component whose
   * default export, its URL, is over the limit and so a hashed file.
   */
  lemma ScriptSvgUrlIsAFile()
    ensures Place(Request("i.svg", "", "src/App.tsx", "esm", 5000)) ==
            Some(JsModule(NamedExport, Some(EmittedFile("static/svg/[name].[contenthash:8].svg"))))
  {
    var req := Request("i.svg", "", "src/App.tsx", "esm", 5000);
    assert !Holds(UrlQuery, req) && !Holds(InlineQuery, req) && !Holds(ReactQuery, req);
    assert Holds(ScriptIssuer, req) by {
      assert ScriptIssuer.suffixes[5] == ".tsx";
      assert EndsWith(req.issuer, ScriptIssuer.suffixes[5]);
    }
    assert Tests(Svg, req) by { assert EndsWith(req.path, ".svg"); }
    SvgFromScriptGivesNamedComponent(req);
    SvgName();
  }
}
