/**
 * The route-path rewriting of template.go: a path is cut at '/', and every
 * segment that looks like a parameter (`{x}`, or anything starting with ':')
 * is replaced by ':' followed by the segment without its first and last
 * characters. `HasPathParams` asks whether any segment looks like a parameter.
 */
module PathParams {
  import opened Strings

  /** The segment test shared by HasPathParams and initPathParams. */
  predicate IsParamSegment(p: string) {
    |p| > 0 && ((p[0] == '{' && p[|p| - 1] == '}') || p[0] == ':')
  }

  predicate IsBraceWrapped(p: string) {
    |p| > 0 && p[0] == '{' && p[|p| - 1] == '}'
  }

  /** Whether some segment of the path is a parameter segment. */
  predicate PathHasParams(path: string) {
    var segs := Split(path, '/');
    exists i :: 0 <= i < |segs| && IsParamSegment(segs[i])
  }

  /**
   * Go slices `p[1:len(p)-1]`, which is out of range for the one-character
   * segment ":"; every other parameter segment has at least two characters.
   */
  function RewriteSegment(p: string): (q: string)
    requires p != ":"
    ensures '/' !in p ==> '/' !in q
  {
    if IsParamSegment(p) then ":" + p[1..|p| - 1] else p
  }

  /** A path the rewrite can handle: no segment is the lone ":". */
  predicate Rewritable(path: string) {
    ":" !in Split(path, '/')
  }

  function RewriteAll(segs: seq<string>): (r: seq<string>)
    requires ":" !in segs
    ensures |r| == |segs|
  {
    seq(|segs|, i requires 0 <= i < |segs| => RewriteSegment(segs[i]))
  }

  /** The path initPathParams stores: the rewritten segments joined with '/'. */
  function RewritePath(path: string): string
    requires Rewritable(path)
  {
    Join(RewriteAll(Split(path, '/')), "/")
  }

  /** The rewritten path, cut at '/', is the sequence of rewritten segments. */
  lemma SegmentsOfRewrite(path: string)
    requires Rewritable(path)
    ensures Split(RewritePath(path), '/') == RewriteAll(Split(path, '/'))
  {
    var out := RewriteAll(Split(path, '/'));
    forall i | 0 <= i < |out|
      ensures '/' !in out[i]
    {
      assert '/' !in Split(path, '/')[i];
    }
    SplitJoin(out, '/');
  }

  /**
   * What initPathParams does to one segment `p`, giving `q`: literal and empty
   * segments are left alone, `{x}` becomes `:x`, every other parameter
   * segment becomes ':' plus its middle (so `:abc` loses its last character),
   * and the result is never brace-wrapped.
   */
  predicate SegmentRewritten(p: string, q: string) {
    && (!IsParamSegment(p) ==> q == p)
    && (IsBraceWrapped(p) ==> q == ":" + p[1..|p| - 1])
    && (IsParamSegment(p) && p[0] == ':' ==> q == p[..|p| - 1])
    && !IsBraceWrapped(q)
  }

  lemma RewriteSegmentSpec(p: string)
    requires p != ":"
    ensures SegmentRewritten(p, RewriteSegment(p))
  {
    if IsParamSegment(p) && p[0] == ':' {
      assert ":" + p[1..|p| - 1] == p[..|p| - 1];
    }
  }

  /** initPathParams keeps the number of segments and rewrites each one on its own. */
  lemma RewriteBySegment(path: string)
    requires Rewritable(path)
    ensures var segs, out := Split(path, '/'), Split(RewritePath(path), '/');
      && |out| == |segs|
      && forall i :: 0 <= i < |segs| ==> SegmentRewritten(segs[i], out[i])
  {
    SegmentsOfRewrite(path);
    var segs := Split(path, '/');
    var out := RewriteAll(segs);
    forall i | 0 <= i < |segs|
      ensures SegmentRewritten(segs[i], out[i])
    {
      RewriteSegmentSpec(segs[i]);
    }
  }

  /** Parameter detection gives the same answer before and after the rewrite. */
  lemma RewriteKeepsParams(path: string)
    requires Rewritable(path)
    ensures PathHasParams(RewritePath(path)) == PathHasParams(path)
  {
    SegmentsOfRewrite(path);
    var segs, out := Split(path, '/'), Split(RewritePath(path), '/');
    if PathHasParams(path) {
      var i :| 0 <= i < |segs| && IsParamSegment(segs[i]);
      assert IsParamSegment(out[i]);
    }
    if PathHasParams(RewritePath(path)) {
      var i :| 0 <= i < |out| && IsParamSegment(out[i]);
      assert IsParamSegment(segs[i]);
    }
  }

  /** Cutting a concrete path: the pieces are the given separator-free segments. */
  lemma SplitExample(path: string, segs: seq<string>)
    requires |segs| >= 1 && forall i :: 0 <= i < |segs| ==> '/' !in segs[i]
    requires Join(segs, "/") == path
    ensures Split(path, '/') == segs
  {
    SplitJoin(segs, '/');
  }

  lemma BraceExampleSegments()
    ensures RewriteAll(["", "v1", "{id}", "items", "{itemId}"]) == ["", "v1", ":id", "items", ":itemId"]
  {
    var r := RewriteAll(["", "v1", "{id}", "items", "{itemId}"]);
    assert "{id}"[1..3] == "id" && "{itemId}"[1..7] == "itemId";
    assert r[0] == "" && r[1] == "v1" && r[2] == ":id" && r[3] == "items" && r[4] == ":itemId";
  }

  lemma RewriteBraceSegments(path: string)
    requires Split(path, '/') == ["", "v1", "{id}", "items", "{itemId}"]
    ensures Rewritable(path)
    ensures RewritePath(path) == "/v1/:id/items/:itemId"
    ensures PathHasParams(path)
  {
    BraceExampleSegments();
    ColonExampleJoin();
    assert IsParamSegment(Split(path, '/')[2]);
  }

  lemma ColonExampleJoin()
    ensures Join(["", "v1", ":id", "items", ":itemId"], "/") == "/v1/:id/items/:itemId"
  {
    var segs := ["", "v1", ":id", "items", ":itemId"];
    assert Join(segs[3..], "/") == "items/:itemId";
  }

  /** Brace parameters become router parameters. */
  lemma RewriteBraceExample(path: string)
    requires path == "/v1/{id}/items/{itemId}"
    ensures Rewritable(path)
    ensures RewritePath(path) == "/v1/:id/items/:itemId"
    ensures PathHasParams(path)
  {
    BraceExampleJoin();
    SplitExample(path, ["", "v1", "{id}", "items", "{itemId}"]);
    RewriteBraceSegments(path);
  }

  lemma BraceExampleJoin()
    ensures Join(["", "v1", "{id}", "items", "{itemId}"], "/") == "/v1/{id}/items/{itemId}"
  {
    var segs := ["", "v1", "{id}", "items", "{itemId}"];
    assert Join(segs[3..], "/") == "items/{itemId}";
  }

  /** A path with only literal segments has no parameters. */
  lemma NoParamsExample(path: string)
    requires path == "/v1/items"
    ensures !PathHasParams(path)
  {
    var segs := ["", "v1", "items"];
    assert Join(segs, "/") == path;
    SplitExample(path, segs);
  }

  lemma ColonExampleSegments()
    ensures RewriteAll(["", "v1", ":id"]) == ["", "v1", ":i"]
    ensures RewriteAll(["", "v1", ":i"]) == ["", "v1", ":"]
  {
    var r := RewriteAll(["", "v1", ":id"]);
    assert ":id"[1..2] == "i";
    assert r[0] == "" && r[1] == "v1" && r[2] == ":i";
    var q := RewriteAll(["", "v1", ":i"]);
    assert ":i"[1..1] == "";
    assert q[0] == "" && q[1] == "v1" && q[2] == ":";
  }

  /**
   * The rewrite is not idempotent: a colon segment loses its last character
   * each time, so `/v1/:id` becomes `/v1/:i`, then `/v1/:`, which the next
   * rewrite cannot handle.
   */
  lemma RewriteNotIdempotent(path: string)
    requires path == "/v1/:id"
    ensures Rewritable(path) && RewritePath(path) == "/v1/:i"
    ensures Rewritable(RewritePath(path)) && RewritePath(RewritePath(path)) == "/v1/:"
    ensures !Rewritable(RewritePath(RewritePath(path)))
  {
    ColonExampleSplits();
    RewriteColonOnce();
    RewriteColonTwice();
  }

  lemma RewriteColonOnce()
    ensures Rewritable("/v1/:id") && RewritePath("/v1/:id") == "/v1/:i"
  {
    SplitColonId();
    ColonExampleSegments();
    assert Join(["", "v1", ":i"], "/") == "/v1/:i";
  }

  lemma RewriteColonTwice()
    ensures Rewritable("/v1/:i") && RewritePath("/v1/:i") == "/v1/:"
  {
    SplitColonI();
    ColonExampleSegments();
    assert Join(["", "v1", ":"], "/") == "/v1/:";
  }

  lemma ColonExampleSplits()
    ensures Split("/v1/:id", '/') == ["", "v1", ":id"]
    ensures Split("/v1/:i", '/') == ["", "v1", ":i"]
    ensures Split("/v1/:", '/') == ["", "v1", ":"]
  {
    SplitColonId();
    SplitColonI();
    SplitColon();
  }

  lemma SplitColonId()
    ensures Split("/v1/:id", '/') == ["", "v1", ":id"]
  {
    var segs := ["", "v1", ":id"];
    assert Join(segs, "/") == "/v1/:id";
    SplitExample("/v1/:id", segs);
  }

  lemma SplitColonI()
    ensures Split("/v1/:i", '/') == ["", "v1", ":i"]
  {
    var segs := ["", "v1", ":i"];
    assert Join(segs, "/") == "/v1/:i";
    SplitExample("/v1/:i", segs);
  }

  lemma SplitColon()
    ensures Split("/v1/:", '/') == ["", "v1", ":"]
  {
    var segs := ["", "v1", ":"];
    assert Join(segs, "/") == "/v1/:";
    SplitExample("/v1/:", segs);
  }
}
