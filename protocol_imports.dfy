/**
 * The `ProtocolImportsPlugin`: before a module request is resolved, a leading
 * `node:` scheme is dropped, so that `import "node:path"` resolves through the
 * browser fallback table like `import "path"`.
 */
module ProtocolImports {
  import opened Text

  const NodeProtocol: string := "node:"

  /** The request after the hook: `replace(/^node:/, "")` guarded by `startsWith("node:")`. */
  function StripNodeProtocol(request: string): (r: string)
    ensures StartsWith(request, NodeProtocol) ==> NodeProtocol + r == request
    ensures !StartsWith(request, NodeProtocol) ==> r == request
  {
    if StartsWith(request, NodeProtocol) then request[|NodeProtocol|..] else request
  }

  /** Putting the scheme in front of any request and running the hook gives the request back. */
  lemma StripUndoesPrefix(request: string)
    ensures StripNodeProtocol(NodeProtocol + request) == request
  {
    assert StartsWith(NodeProtocol + request, NodeProtocol);
  }

  /** The hook leaves a request alone exactly when it does not carry the scheme. */
  lemma UnchangedIffNoProtocol(request: string)
    ensures StripNodeProtocol(request) == request <==> !StartsWith(request, NodeProtocol)
  {
    if StartsWith(request, NodeProtocol) {
      assert |StripNodeProtocol(request)| == |request| - |NodeProtocol|;
    }
  }

  /** Exactly the five characters of the scheme are removed, or nothing. */
  lemma RemovesExactlyTheScheme(request: string)
    ensures |StripNodeProtocol(request)| == if StartsWith(request, NodeProtocol) then |request| - 5 else |request|
    ensures StripNodeProtocol(request) == request[|request| - |StripNodeProtocol(request)|..]
  {
  }

  /**
   * Running the hook a second time changes the request again exactly when the
   * first run left a `node:` prefix behind, so the rewrite is not idempotent.
   */
  lemma SecondRunChangesIff(request: string)
    ensures (StripNodeProtocol(StripNodeProtocol(request)) != StripNodeProtocol(request)) <==>
            StartsWith(StripNodeProtocol(request), NodeProtocol)
  {
    UnchangedIffNoProtocol(StripNodeProtocol(request));
  }

  /** `node:node:fs` becomes `node:fs`, which still carries the scheme. */
  lemma NotIdempotent()
    ensures StripNodeProtocol("node:node:fs") == "node:fs"
    ensures StripNodeProtocol(StripNodeProtocol("node:node:fs")) == "fs"
  {
    StripUndoesPrefix("node:fs");
    assert NodeProtocol + "node:fs" == "node:node:fs";
    StripUndoesPrefix("fs");
    assert NodeProtocol + "fs" == "node:fs";
  }

  /** The resolve data the hook receives; only `request` is written by the plugin. */
  class ResolveData {
    var request: string
    var context: string
    var issuer: string

    constructor (request: string, context: string, issuer: string)
      ensures this.request == request && this.context == context && this.issuer == issuer
    {
      this.request := request;
      this.context := context;
      this.issuer := issuer;
    }

    /** The `beforeResolve` tap of the plugin, rewriting `request` in place. */
    method BeforeResolve()
      modifies this
      ensures request == StripNodeProtocol(old(request))
      ensures old(StartsWith(request, NodeProtocol)) ==> NodeProtocol + request == old(request)
      ensures context == old(context) && issuer == old(issuer)
    {
      if StartsWith(request, NodeProtocol) {
        request := request[|NodeProtocol|..];
      }
    }
  }
}
