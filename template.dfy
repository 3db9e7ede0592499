/**
 * The route descriptor of template.go (the Go struct `method`) and the
 * helpers the code template calls on it, plus the `service` record that
 * collects a service's descriptors.
 */
module Template {
  import opened Strings
  import opened PathParams

  /** The value held by a route descriptor, field for field. */
  datatype Route = Route(
    name: string,
    num: int,
    request: string,
    reply: string,
    path: string,
    httpMethod: string,
    body: string,
    responseBody: string,
    summary: string,
    description: string,
    tags: string,
    deprecated: bool,
    requireAuth: bool,
    authSchemes: string)
  {
    /** The gin handler name: the method name, '_', and the decimal binding number. */
    function HandlerName(): (h: string)
      ensures |h| >= |name| + 2
      ensures h[..|name|] == name && h[|name|] == '_'
      ensures h[|name| + 1..] == IntToString(num)
    {
      name + "_" + IntToString(num)
    }
  }

  /** The security annotation emitted for one entry of a comma-separated scheme list. */
  function SecurityLine(scheme: string): (lines: seq<string>)
    ensures |lines| <= 1
    ensures TrimSpace(scheme) == "" <==> lines == []
  {
    var s := TrimSpace(scheme);
    if s != "" then ["// @Security " + s] else []
  }

  /** One security line per entry whose trimmed text is non-empty, in order. */
  function SecurityLines(schemes: seq<string>): seq<string>
  {
    if schemes == [] then []
    else SecurityLines(schemes[..|schemes| - 1]) + SecurityLine(schemes[|schemes| - 1])
  }

  /** Extending the scheme list by one entry adds that entry's line, if any. */
  lemma SecurityLinesStep(schemes: seq<string>, i: int)
    requires 0 <= i < |schemes|
    ensures SecurityLines(schemes[..i + 1]) == SecurityLines(schemes[..i]) + SecurityLine(schemes[i])
  {
    assert schemes[..i + 1][..i] == schemes[..i];
  }

  /**
   * Every security line is the annotation prefix followed by a non-empty
   * scheme with no surrounding white space, and no entry yields more than one.
   */
  lemma {:induction false} SecurityLinesShape(schemes: seq<string>)
    ensures |SecurityLines(schemes)| <= |schemes|
    ensures forall l :: l in SecurityLines(schemes) ==>
      exists s :: l == "// @Security " + s && s != "" && !IsSpace(s[0]) && !IsSpace(s[|s| - 1])
  {
    if schemes != [] {
      SecurityLinesShape(schemes[..|schemes| - 1]);
    }
  }

  /** Extracting the route description of a method as a mutable record. */
  class MethodDesc {
    var name: string
    var num: int
    var request: string
    var reply: string
    var path: string
    var httpMethod: string
    var body: string
    var responseBody: string
    var summary: string
    var description: string
    var tags: string
    var deprecated: bool
    var requireAuth: bool
    var authSchemes: string

    /** A composite literal naming six fields; the others get Go's zero values. */
    constructor (name: string, num: int, request: string, reply: string, path: string, httpMethod: string)
      ensures View() == Route(name, num, request, reply, path, httpMethod, "", "", "", "", "", false, false, "")
    {
      this.name, this.num, this.request, this.reply := name, num, request, reply;
      this.path, this.httpMethod := path, httpMethod;
      body, responseBody, summary, description, tags := "", "", "", "", "";
      deprecated, requireAuth, authSchemes := false, false, "";
    }

    function View(): Route
      reads this
    {
      Route(name, num, request, reply, path, httpMethod, body, responseBody,
            summary, description, tags, deprecated, requireAuth, authSchemes)
    }

    /** The handler name of the described route. */
    function HandlerName(): (h: string)
      reads this
      ensures h == View().HandlerName()
    {
      name + "_" + IntToString(num)
    }

    /** Whether some '/'-separated segment of the path is `{x}` or starts with ':'. */
    method HasPathParams() returns (b: bool)
      ensures b == PathHasParams(path)
    {
      var paths := Split(path, '/');
      for i := 0 to |paths|
        invariant forall j :: 0 <= j < i ==> !IsParamSegment(paths[j])
      {
        var p := paths[i];
        if |p| > 0 && ((p[0] == '{' && p[|p| - 1] == '}') || p[0] == ':') {
          return true;
        }
      }
      return false;
    }

    /**
     * Rewrites the path's parameter segments to gin's `:x` syntax in place.
     * Go slices `p[1:len(p)-1]` and so panics on a segment that is just ":";
     * `ok` is false exactly then, and the path is left as it was.
     */
    method InitPathParams() returns (ok: bool)
      modifies this`path
      ensures ok == Rewritable(old(path))
      ensures ok ==> path == RewritePath(old(path))
      ensures !ok ==> path == old(path)
    {
      var segs := Split(path, '/');
      var paths := segs;
      var i := 0;
      while i < |paths|
        invariant 0 <= i <= |paths| == |segs|
        invariant forall j :: 0 <= j < i ==> segs[j] != ":" && paths[j] == RewriteSegment(segs[j])
        invariant paths[i..] == segs[i..]
      {
        var p := paths[i];
        assert p == segs[i];
        if |p| > 0 && ((p[0] == '{' && p[|p| - 1] == '}') || p[0] == ':') {
          if |p| < 2 {
            assert p == ":" && segs[i] in segs;
            return false;
          }
          paths := paths[i := ":" + p[1..|p| - 1]];
        }
        i := i + 1;
      }
      assert paths == RewriteAll(segs);
      path := Join(paths, "/");
      return true;
    }

    function GetSwaggerSummary(): (s: string)
      reads this
      ensures summary != "" ==> s == summary
      ensures summary == "" ==> s == name
      ensures name != "" ==> s != ""
    {
      if summary != "" then summary else name
    }

    function GetSwaggerDescription(): (s: string)
      reads this
      ensures s != ""
      ensures description != "" ==> s == description
      ensures description == "" ==> s == name + " API endpoint"
    {
      if description != "" then description else name + " API endpoint"
    }

    function GetSwaggerTags(): (s: string)
      reads this
      ensures s != ""
      ensures tags != "" ==> s == tags
      ensures tags == "" ==> s == "api"
    {
      if tags != "" then tags else "api"
    }

    /** The HTTP verb as Swagger writes it: lower case, equal to the verb up to case. */
    function GetSwaggerMethod(): (s: string)
      reads this
      ensures |s| == |httpMethod|
      ensures forall i :: 0 <= i < |s| ==> !IsUpper(s[i])
      ensures ToUpper(s) == ToUpper(httpMethod)
    {
      UpperOfLower(httpMethod);
      ToLower(httpMethod)
    }

    /** The path with exactly one '/' guaranteed in front. */
    function GetSwaggerPath(): (p: string)
      reads this
      ensures |p| >= 1 && p[0] == '/'
      ensures |path| >= 1 && path[0] == '/' ==> p == path
      ensures !(|path| >= 1 && path[0] == '/') ==> p[1..] == path
    {
      if |path| >= 1 && path[0] == '/' then path else "/" + path
    }

    /** GET and DELETE carry their parameters in the query string. */
    function IsQueryMethod(): (b: bool)
      reads this
      ensures b <==> httpMethod == "GET" || httpMethod == "DELETE"
      ensures b ==> GetSwaggerMethod() == "get" || GetSwaggerMethod() == "delete"
    {
      httpMethod == "GET" || httpMethod == "DELETE"
    }

    /** The Swagger parameter annotation: a query parameter for query methods, a body otherwise. */
    function GetSwaggerParamComment(): (c: string)
      reads this
      ensures IsQueryMethod() ==> c == "// @Param request query " + request + " true \"Query parameters\""
      ensures !IsQueryMethod() ==> c == "// @Param request body " + request + " true \"Request body\""
    {
      if IsQueryMethod() then
        "// @Param request query " + request + " true \"Query parameters\""
      else
        "// @Param request body " + request + " true \"Request body\""
    }

    /** One `// @Security` line per configured scheme, or nothing when no auth is required. */
    method GetAuthComment() returns (c: string)
      ensures !requireAuth || authSchemes == "" ==> c == ""
      ensures requireAuth && authSchemes != "" ==> c == Join(SecurityLines(Split(authSchemes, ',')), "\n")
    {
      if !requireAuth || authSchemes == "" {
        return "";
      }
      var schemes := Split(authSchemes, ',');
      var lines: seq<string> := [];
      for i := 0 to |schemes|
        invariant lines == SecurityLines(schemes[..i])
      {
        SecurityLinesStep(schemes, i);
        var scheme := TrimSpace(schemes[i]);
        if scheme != "" {
          lines := lines + ["// @Security " + scheme];
        }
      }
      assert schemes[..|schemes|] == schemes;
      return Join(lines, "\n");
    }
  }

  /**
   * Handler names are unambiguous: since the printed number holds no '_', the
   * name and the number can be read back from the handler name.
   */
  lemma HandlerNameInjective(a: Route, b: Route)
    requires a.HandlerName() == b.HandlerName()
    ensures a.name == b.name && a.num == b.num
  {
    var h := a.HandlerName();
    assert |a.name| == |b.name| by {
      NoUnderscoreAfterName(a);
      NoUnderscoreAfterName(b);
    }
    assert a.name == h[..|a.name|] == b.name;
    IntToStringInjective(a.num, b.num);
  }

  /** The '_' after the method name is the last one in the handler name. */
  lemma NoUnderscoreAfterName(r: Route)
    ensures forall i :: |r.name| < i < |r.HandlerName()| ==> r.HandlerName()[i] != '_'
  {
    var h := r.HandlerName();
    forall i | |r.name| < i < |h|
      ensures h[i] != '_'
    {
      assert h[i] == h[|r.name| + 1..][i - |r.name| - 1];
    }
  }

  /** Prefixing the Swagger path is idempotent. */
  lemma SwaggerPathIdempotent(a: MethodDesc, b: MethodDesc)
    requires b.path == a.GetSwaggerPath()
    ensures b.GetSwaggerPath() == b.path
  {
  }

  /** The per-service record handed to the code template. */
  class ServiceDesc {
    var name: string
    var fullName: string
    var filePath: string
    var methods: seq<MethodDesc>

    constructor (name: string, fullName: string, filePath: string)
      ensures this.name == name && this.fullName == fullName && this.filePath == filePath
      ensures methods == []
    {
      this.name, this.fullName, this.filePath := name, fullName, filePath;
      methods := [];
    }
  }

  /** The descriptors hold exactly the given route values, in order. */
  predicate Describes(ms: seq<MethodDesc>, routes: seq<Route>)
    reads ms
  {
    |ms| == |routes| && forall i :: 0 <= i < |ms| ==> ms[i].View() == routes[i]
  }

  /** Appending a descriptor appends the route it holds. */
  lemma DescribesSnoc(a: seq<MethodDesc>, d: MethodDesc, ra: seq<Route>)
    requires Describes(a, ra)
    ensures Describes(a + [d], ra + [d.View()])
  {
    forall i | 0 <= i < |a| + 1
      ensures (a + [d])[i].View() == (ra + [d.View()])[i]
    {
      if i < |a| {
        assert (a + [d])[i] == a[i] && (ra + [d.View()])[i] == ra[i];
      }
    }
  }

  /** Descriptor lists describing two route lists together describe their concatenation. */
  lemma DescribesAppend(a: seq<MethodDesc>, b: seq<MethodDesc>, ra: seq<Route>, rb: seq<Route>)
    requires Describes(a, ra) && Describes(b, rb)
    ensures Describes(a + b, ra + rb)
  {
    forall i | 0 <= i < |a + b|
      ensures (a + b)[i].View() == (ra + rb)[i]
    {
      if i >= |a| {
        assert (a + b)[i] == b[i - |a|] && (ra + rb)[i] == rb[i - |a|];
      }
    }
  }
}
