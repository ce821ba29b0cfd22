/**
 * The `optimization.splitChunks.cacheGroups` tests: three named vendor chunks,
 * each claiming modules whose path passes through a `node_modules` directory of
 * particular packages. The tests are unanchored regular expressions.
 */
module ChunkGroups {
  import opened Wrappers
  import opened Text

  datatype Group = LibAxios | LibReact | LibRouter

  /** The chunk name each group gives its modules. */
  function Name(g: Group): string {
    match g
    case LibAxios => "lib-axios"
    case LibReact => "lib-react"
    case LibRouter => "lib-router"
  }

  /**
   * At index `i` the path spells the segments one after another, each followed by
   * a separator: `seg0[\\/]seg1[\\/]…`.
   */
  predicate SegmentsAt(path: string, i: int, segs: seq<string>)
    decreases |segs|
  {
    if |segs| == 0 then true
    else
      && 0 <= i
      && i + |segs[0]| < |path|
      && path[i..i + |segs[0]|] == segs[0]
      && IsSeparator(path[i + |segs[0]|])
      && SegmentsAt(path, i + |segs[0]| + 1, segs[1..])
  }

  /** `react|react-dom|scheduler|react-refresh|@rspack[\\/]plugin-react-refresh` */
  const ReactPackages: seq<seq<string>> :=
    [["react"], ["react-dom"], ["scheduler"], ["react-refresh"], ["@rspack", "plugin-react-refresh"]]
  /** `react-router|react-router-dom|history|@remix-run[\\/]router` */
  const RouterPackages: seq<seq<string>> :=
    [["react-router"], ["react-router-dom"], ["history"], ["@remix-run", "router"]]

  /** `node_modules[\\/](?:p1|p2|…)[\\/]` matches at index `i`. */
  predicate PackageDirAt(path: string, i: int, packages: seq<seq<string>>) {
    exists k :: 0 <= k < |packages| && SegmentsAt(path, i, ["node_modules"] + packages[k])
  }

  /** The characters `.` does not match in a JavaScript regular expression. */
  predicate IsLineTerminator(c: char) {
    c == '\n' || c == '\r' || c == '\U{2028}' || c == '\U{2029}'
  }

  /**
   * `node_modules[\\/]axios(-.+)?[\\/]` matches at index `i`: `axios` followed by a
   * separator, or by `-`, at least one character other than a line terminator,
   * and a separator further on.
   */
  predicate AxiosAt(path: string, i: int) {
    && SegmentsAt(path, i, ["node_modules"])
    && var j := i + 13;
    && j + 5 < |path|
    && path[j..j + 5] == "axios"
    && (|| IsSeparator(path[j + 5])
        || (&& path[j + 5] == '-'
            && exists m :: j + 6 < m < |path| && IsSeparator(path[m]) &&
                           forall t :: j + 6 <= t < m ==> !IsLineTerminator(path[t])))
  }

  /** The `test` of each cache group, searched anywhere in the module's path. */
  predicate InGroup(path: string, g: Group) {
    match g
    case LibAxios => exists i :: 0 <= i < |path| && AxiosAt(path, i)
    case LibReact => exists i :: 0 <= i < |path| && PackageDirAt(path, i, ReactPackages)
    case LibRouter => exists i :: 0 <= i < |path| && PackageDirAt(path, i, RouterPackages)
  }

  /**
   * At most one `node_modules[\\/]` occurrence is followed by a package name that a
   * group claims. Paths through a single `node_modules` qualify, and so do pnpm paths
   * such as `node_modules/.pnpm/axios@1.6.0/node_modules/axios/index.js`.
   */
  predicate SingleClaimedPackage(path: string) {
    forall i, j :: 0 <= i < |path| && 0 <= j < |path| && ClaimedAt(path, i) && ClaimedAt(path, j) ==> i == j
  }

  /** `node_modules[\\/]` occurs at `i` and a group claims the name after it. */
  predicate ClaimedAt(path: string, i: int) {
    && SegmentsAt(path, i, ["node_modules"])
    && Claimant(NameAt(path, i + 13)).Some?
  }

  // ----- Lemmas ------------------------------------------------------------------------------

  predicate SeparatorFree(s: string) {
    forall t :: 0 <= t < |s| ==> !IsSeparator(s[t])
  }

  /** The directory name starting at index `j`: every character up to the next separator. */
  function NameAt(path: string, j: nat): (r: string)
    requires j <= |path|
    ensures SeparatorFree(r) && j + |r| <= |path|
    ensures j + |r| < |path| ==> IsSeparator(path[j + |r|])
    decreases |path| - j
  {
    if j == |path| || IsSeparator(path[j]) then ""
    else [path[j]] + NameAt(path, j + 1)
  }

  /** A separator-free run of characters at `j` begins the directory name there. */
  lemma {:induction false} NameAtPrefix(path: string, j: nat, p: string)
    requires SeparatorFree(p) && j + |p| <= |path| && path[j..j + |p|] == p
    ensures p <= NameAt(path, j)
    decreases |p|
  {
    if |p| > 0 {
      assert path[j] == path[j..j + |p|][0] == p[0];
      assert path[j + 1..j + 1 + |p[1..]|] == path[j..j + |p|][1..];
      NameAtPrefix(path, j + 1, p[1..]);
      assert p == [p[0]] + p[1..];
    }
  }

  /** A separator-free name followed by a separator is the whole directory name. */
  lemma {:induction false} NameAtDelimited(path: string, j: nat, a: string)
    requires SeparatorFree(a) && j + |a| < |path| && path[j..j + |a|] == a && IsSeparator(path[j + |a|])
    ensures NameAt(path, j) == a
    decreases |a|
  {
    if |a| > 0 {
      assert path[j] == path[j..j + |a|][0] == a[0];
      assert path[j + 1..j + 1 + |a[1..]|] == path[j..j + |a|][1..];
      NameAtDelimited(path, j + 1, a[1..]);
      assert a == [a[0]] + a[1..];
    }
  }

  /** The first directory name of each package pattern. */
  const ReactHeads: seq<string> := ["react", "react-dom", "scheduler", "react-refresh", "@rspack"]
  const RouterHeads: seq<string> := ["react-router", "react-router-dom", "history", "@remix-run"]

  /**
   * Which group, if any, a directory name right after `node_modules` leads to;
   * the three tests agree with it, so it decides the group by itself.
   */
  function Claimant(name: string): Option<Group> {
    if "axios" <= name then Some(LibAxios)
    else if name in ReactHeads then Some(LibReact)
    else if name in RouterHeads then Some(LibRouter)
    else None
  }

  /** Matching `["node_modules"] + rest` is matching `node_modules[\\/]` and then `rest` after it. */
  lemma SegmentsSplit(path: string, i: int, rest: seq<string>)
    requires SegmentsAt(path, i, ["node_modules"] + rest)
    ensures SegmentsAt(path, i, ["node_modules"]) && SegmentsAt(path, i + 13, rest)
  {
    assert (["node_modules"] + rest)[0] == "node_modules";
    assert (["node_modules"] + rest)[1..] == rest;
  }

  lemma ReactHeadsClaimReact()
    ensures forall k :: 0 <= k < |ReactPackages| ==> |ReactPackages[k]| > 0 && SeparatorFree(ReactPackages[k][0])
    ensures forall k :: 0 <= k < |ReactPackages| ==> ReactPackages[k][0] == ReactHeads[k]
    ensures forall k :: 0 <= k < |ReactHeads| ==> SeparatorFree(ReactHeads[k]) && Claimant(ReactHeads[k]) == Some(LibReact)
  {
    assert forall k :: 0 <= k < |ReactHeads| ==> !("axios" <= ReactHeads[k]) by {
      assert forall k :: 0 <= k < |ReactHeads| ==> ReactHeads[k][0] != 'a';
    }
  }

  lemma RouterHeadsClaimRouter()
    ensures forall k :: 0 <= k < |RouterPackages| ==> |RouterPackages[k]| > 0 && SeparatorFree(RouterPackages[k][0])
    ensures forall k :: 0 <= k < |RouterPackages| ==> RouterPackages[k][0] == RouterHeads[k]
    ensures forall k :: 0 <= k < |RouterHeads| ==> SeparatorFree(RouterHeads[k]) && Claimant(RouterHeads[k]) == Some(LibRouter)
  {
    assert forall k :: 0 <= k < |RouterHeads| ==> !("axios" <= RouterHeads[k]) by {
      assert forall k :: 0 <= k < |RouterHeads| ==> RouterHeads[k][0] != 'a';
    }
    assert forall k :: 0 <= k < |RouterHeads| ==> RouterHeads[k] !in ReactHeads;
  }

  /** Where a package pattern matches, the directory name after `node_modules` is the package's first name. */
  lemma PackageNameAt(path: string, i: nat, packages: seq<seq<string>>) returns (k: nat)
    requires forall l :: 0 <= l < |packages| ==> |packages[l]| > 0 && SeparatorFree(packages[l][0])
    requires PackageDirAt(path, i, packages)
    ensures k < |packages| && SegmentsAt(path, i, ["node_modules"])
    ensures i + 13 <= |path| && NameAt(path, i + 13) == packages[k][0]
  {
    k :| 0 <= k < |packages| && SegmentsAt(path, i, ["node_modules"] + packages[k]);
    SegmentsSplit(path, i, packages[k]);
    NameAtDelimited(path, i + 13, packages[k][0]);
  }

  /** Where a react pattern matches, the directory name after `node_modules` claims the react group. */
  lemma ReactClaims(path: string, i: nat)
    requires PackageDirAt(path, i, ReactPackages)
    ensures SegmentsAt(path, i, ["node_modules"]) && Claimant(NameAt(path, i + 13)) == Some(LibReact)
  {
    ReactHeadsClaimReact();
    var k := PackageNameAt(path, i, ReactPackages);
    assert NameAt(path, i + 13) == ReactHeads[k];
  }

  /** Where a router pattern matches, the directory name after `node_modules` claims the router group. */
  lemma RouterClaims(path: string, i: nat)
    requires PackageDirAt(path, i, RouterPackages)
    ensures SegmentsAt(path, i, ["node_modules"]) && Claimant(NameAt(path, i + 13)) == Some(LibRouter)
  {
    RouterHeadsClaimRouter();
    var k := PackageNameAt(path, i, RouterPackages);
    assert NameAt(path, i + 13) == RouterHeads[k];
  }

  /** Where the axios pattern matches, the directory name after `node_modules` starts with `axios`. */
  lemma AxiosClaims(path: string, i: nat)
    requires AxiosAt(path, i)
    ensures Claimant(NameAt(path, i + 13)) == Some(LibAxios)
  {
    NameAtPrefix(path, i + 13, "axios");
  }

  /** The index where a group's test matches, with the directory name after it. */
  lemma MatchIndex(path: string, g: Group) returns (i: nat)
    requires InGroup(path, g)
    ensures i < |path| && SegmentsAt(path, i, ["node_modules"])
    ensures Claimant(NameAt(path, i + 13)) == Some(g)
  {
    match g
    case LibAxios =>
      i :| 0 <= i < |path| && AxiosAt(path, i);
      AxiosClaims(path, i);
    case LibReact =>
      i :| 0 <= i < |path| && PackageDirAt(path, i, ReactPackages);
      ReactClaims(path, i);
    case LibRouter =>
      i :| 0 <= i < |path| && PackageDirAt(path, i, RouterPackages);
      RouterClaims(path, i);
  }

  /**
   * A module whose path has one `node_modules` occurrence followed by a claimed
   * package name belongs to at most one group, because each pattern ends its
   * package name with a separator.
   */
  lemma AtMostOneGroup(path: string, g1: Group, g2: Group)
    requires SingleClaimedPackage(path)
    requires InGroup(path, g1) && InGroup(path, g2)
    ensures g1 == g2
  {
    var i1 := MatchIndex(path, g1);
    var i2 := MatchIndex(path, g2);
    assert ClaimedAt(path, i1) && ClaimedAt(path, i2);
  }

  /**
   * Such a module goes to one named chunk: every group
   * it matches names the same chunk, and different groups name different chunks.
   */
  lemma ChunkNameDetermined(path: string, g: Group)
    requires SingleClaimedPackage(path) && InGroup(path, g)
    ensures forall h :: InGroup(path, h) ==> Name(h) == Name(g)
    ensures forall h :: Name(h) == Name(g) ==> h == g
  {
    forall h | InGroup(path, h)
      ensures Name(h) == Name(g)
    {
      AtMostOneGroup(path, g, h);
    }
    forall h | Name(h) == Name(g)
      ensures h == g
    {
      assert Name(h)[4] == Name(g)[4];
    }
  }

  // ----- Example paths -------------------------------------------------------------------------

  /** `node_modules`, a separator, a name and a separator, spelled out at index `i`. */
  lemma PackageDirSpelled(path: string, i: nat, name: string)
    requires i + 14 + |name| <= |path|
    requires path[i..i + 12] == "node_modules" && IsSeparator(path[i + 12])
    requires path[i + 13..i + 13 + |name|] == name && IsSeparator(path[i + 13 + |name|])
    ensures SegmentsAt(path, i, ["node_modules", name])
  {
    var segs := ["node_modules", name];
    assert segs[1..][1..] == [];
    assert segs[1..][0] == name;
  }

  lemma NodeModulesSpelled(path: string, i: nat)
    requires i + 13 <= |path| && path[i..i + 12] == "node_modules" && IsSeparator(path[i + 12])
    ensures SegmentsAt(path, i, ["node_modules"])
  {
    assert ["node_modules"][1..] == [];
  }

  /** A package whose name extends `axios` with a dash goes to the axios chunk. */
  lemma AxiosVariantIsGrouped()
    ensures InGroup("/node_modules/axios-retry/a.js", LibAxios)
  {
    var path := "/node_modules/axios-retry/a.js";
    assert path == "/" + "node_modules" + "/" + "axios" + "-retry/a.js";
    assert IsSeparator(path[25]);
    assert forall t :: 20 <= t < 25 ==> !IsLineTerminator(path[t]);
    assert path[1..13] == "node_modules" && path[14..19] == "axios";
    NodeModulesSpelled(path, 1);
    assert AxiosAt(path, 1);
  }

  /** Windows separators are accepted on both sides of the package name. */
  lemma BackslashReactIsGrouped()
    ensures InGroup("C:\\node_modules\\react\\a.js", LibReact)
  {
    var path := "C:\\node_modules\\react\\a.js";
    assert path == "C:\\" + "node_modules" + "\\" + "react" + "\\a.js";
    PackageDirSpelled(path, 3, "react");
    assert ["node_modules"] + ReactPackages[0] == ["node_modules", "react"];
    assert PackageDirAt(path, 3, ReactPackages);
  }

  /** `react-router` is claimed by the router group, not by `react`, whose name must end at a separator. */
  lemma ReactRouterIsRouter()
    ensures InGroup("/node_modules/react-router/a.js", LibRouter)
    ensures Claimant(NameAt("/node_modules/react-router/a.js", 14)) == Some(LibRouter)
  {
    var path := "/node_modules/react-router/a.js";
    assert path == "/" + "node_modules" + "/" + "react-router" + "/a.js";
    PackageDirSpelled(path, 1, "react-router");
    assert ["node_modules"] + RouterPackages[0] == ["node_modules", "react-router"];
    assert PackageDirAt(path, 1, RouterPackages);
    RouterClaims(path, 1);
  }
}
