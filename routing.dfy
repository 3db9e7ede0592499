/**
 * The decisions of gin.go as pure functions: the naming-convention verb and
 * path, the verb and path of an annotation, qualified type names, and the
 * route values (with their numbers and the counter after them) that the
 * generator produces for a method and for a service.
 */
module Routing {
  import opened Wrappers
  import opened Strings
  import opened Naming
  import opened PathParams
  import opened Template
  import opened Descriptors

  /** What a binding contributes before it is described: verb, raw path and body marker. */
  datatype Binding = Binding(verb: string, path: string, body: string)

  /** The first tokens defaultMethod's switch recognises. */
  predicate IsVerbWord(key: string) {
    key in {"GET", "FIND", "QUERY", "LIST", "SEARCH", "POST", "CREATE", "PUT", "UPDATE", "PATCH", "DELETE"}
  }

  /** The verb table of defaultMethod, keyed by the upper-cased first token; POST otherwise. */
  function DefaultVerb(key: string): (verb: string)
    ensures verb == "GET" <==> key in {"GET", "FIND", "QUERY", "LIST", "SEARCH"}
    ensures verb == "POST" <==> key in {"POST", "CREATE"} || !IsVerbWord(key)
    ensures verb == "PUT" <==> key in {"PUT", "UPDATE"}
    ensures verb == "PATCH" <==> key == "PATCH"
    ensures verb == "DELETE" <==> key == "DELETE"
  {
    if key in {"GET", "FIND", "QUERY", "LIST", "SEARCH"} then "GET"
    else if key in {"POST", "CREATE"} then "POST"
    else if key in {"PUT", "UPDATE"} then "PUT"
    else if key == "PATCH" then "PATCH"
    else if key == "DELETE" then "DELETE"
    else "POST"
  }

  /**
   * defaultMethod: the verb comes from the first token; with two or more
   * tokens the path is the remaining tokens joined by '/', whatever the
   * verb; a lone token is the path only when it is not a verb word.
   */
  function DefaultBinding(goName: string): (b: Binding)
    ensures var names := Split(ToSnakeCase(goName), '_');
      && b.verb == DefaultVerb(ToUpper(names[0]))
      && (|names| > 1 ==> b.path == Join(names[1..], "/"))
      && (|names| == 1 ==> b.path == if IsVerbWord(ToUpper(names[0])) then "" else names[0])
      && b.body == "*"
  {
    var names := Split(ToSnakeCase(goName), '_');
    var key := ToUpper(names[0]);
    var paths := if IsVerbWord(key) then [] else names;
    var path := if |paths| > 0 then Join(paths, "/") else "";
    var path := if |names| > 1 then Join(names[1..], "/") else path;
    Binding(DefaultVerb(key), path, "*")
  }

  /**
   * For a method name made of capitalised words, the verb comes from the
   * first word, and the path is the remaining words in lower case joined by
   * '/'; a one-word name is its own path unless it is a verb word.
   */
  lemma DefaultBindingOfWords(ws: seq<string>)
    requires |ws| >= 1 && forall i :: 0 <= i < |ws| ==> IsWord(ws[i])
    ensures var b := DefaultBinding(Concat(ws));
      && b.verb == DefaultVerb(ToUpper(ws[0]))
      && b.path == (if |ws| > 1 then Join(LowerAll(ws[1..]), "/")
                    else if IsVerbWord(ToUpper(ws[0])) then "" else ToLower(ws[0]))
      && b.body == "*"
  {
    CamelWordsTokens(ws);
    UpperOfLower(ws[0]);
    assert LowerAll(ws)[1..] == LowerAll(ws[1..]);
  }

  lemma SayHelloWords(ws: seq<string>)
    requires ws == ["Say", "Hello"]
    ensures Concat(ws) == "SayHello" && IsWord(ws[0]) && IsWord(ws[1])
    ensures LowerAll(ws[1..]) == ["hello"] && ToUpper(ws[0]) == "SAY"
  {
    assert Concat(ws[1..]) == "Hello";
    assert ToLower("Hello") == "hello" by {
      var l := ToLower("Hello");
      assert l[0] == 'h' && l[1] == 'e' && l[2] == 'l' && l[3] == 'l' && l[4] == 'o';
    }
    assert ToUpper("Say") == "SAY" by {
      var u := ToUpper("Say");
      assert u[0] == 'S' && u[1] == 'A' && u[2] == 'Y';
    }
  }

  /** A name whose first word is not a verb word is a POST; the rest of the name is the path. */
  lemma DefaultBindingSayHello(name: string)
    requires name == "SayHello"
    ensures DefaultBinding(name) == Binding("POST", "hello", "*")
  {
    var ws := ["Say", "Hello"];
    SayHelloWords(ws);
    DefaultBindingOfWords(ws);
  }

  /** A single word that is not a verb word is a POST to that word. */
  lemma DefaultBindingPing(name: string)
    requires name == "Ping"
    ensures DefaultBinding(name) == Binding("POST", "ping", "*")
  {
    var ws := ["Ping"];
    assert Concat(ws) == name && IsWord(ws[0]);
    assert ToUpper(ws[0]) == "PING" && ToLower(ws[0]) == "ping";
    DefaultBindingOfWords(ws);
  }

  /** A single verb word is that verb with an empty path. */
  lemma DefaultBindingGet(name: string)
    requires name == "Get"
    ensures DefaultBinding(name) == Binding("GET", "", "*")
  {
    var ws := ["Get"];
    assert Concat(ws) == name && IsWord(ws[0]);
    assert ToUpper(ws[0]) == "GET";
    DefaultBindingOfWords(ws);
  }

  lemma GetBlogArticlesWords(ws: seq<string>)
    requires ws == ["Get", "Blog", "Articles"]
    ensures forall i :: 0 <= i < |ws| ==> IsWord(ws[i])
    ensures Join(LowerAll(ws[1..]), "/") == "blog/articles" && ToUpper(ws[0]) == "GET"
  {
    assert IsWord("Get") && IsWord("Blog") && IsWord("Articles");
    BlogArticlesLower(ws[1..]);
    assert ToUpper("Get") == "GET" by {
      var u := ToUpper("Get");
      assert u[0] == 'G' && u[1] == 'E' && u[2] == 'T';
    }
  }

  lemma BlogArticlesLower(ws: seq<string>)
    requires ws == ["Blog", "Articles"]
    ensures Join(LowerAll(ws), "/") == "blog/articles"
  {
    assert ToLower("Blog") == "blog" && ToLower("Articles") == "articles";
    assert LowerAll(ws) == ["blog", "articles"];
  }

  /** The example of defaultMethod's comment: GetBlogArticles is GET blog/articles. */
  lemma DefaultBindingGetBlogArticles(name: string)
    requires name == "GetBlogArticles"
    ensures DefaultBinding(name) == Binding("GET", "blog/articles", "*")
  {
    var ws := ["Get", "Blog", "Articles"];
    assert Concat(ws) == name by {
      assert Concat(ws[2..]) == "Articles";
    }
    GetBlogArticlesWords(ws);
    DefaultBindingOfWords(ws);
  }

  /** buildHTTPRule's switch: the verb and path of the set pattern, empty when none is set. */
  function PatternBinding(p: Pattern): (b: Binding)
    ensures b.body == ""
    ensures p.Unset? <==> b.verb == "" && b.path == "" && !p.Custom?
    ensures p.Custom? ==> b.verb == p.kind && b.path == p.path
    ensures p.Get? ==> b.verb == "GET" && b.path == p.path
    ensures p.Put? ==> b.verb == "PUT" && b.path == p.path
    ensures p.Post? ==> b.verb == "POST" && b.path == p.path
    ensures p.Delete? ==> b.verb == "DELETE" && b.path == p.path
    ensures p.Patch? ==> b.verb == "PATCH" && b.path == p.path
  {
    match p
    case Get(path) => Binding("GET", path, "")
    case Put(path) => Binding("PUT", path, "")
    case Post(path) => Binding("POST", path, "")
    case Delete(path) => Binding("DELETE", path, "")
    case Patch(path) => Binding("PATCH", path, "")
    case Custom(kind, path) => Binding(kind, path, "")
    case Unset => Binding("", "", "")
  }

  /** The bindings of a method in generation order: the alternates as listed, then the primary. */
  function Bindings(m: RpcMethod): (bs: seq<Binding>)
    ensures m.http.None? ==> bs == [DefaultBinding(m.goName)]
    ensures m.http.Some? ==>
      var alts := m.http.value.additionalBindings;
      && |bs| == |alts| + 1
      && (forall i :: 0 <= i < |alts| ==> bs[i] == PatternBinding(alts[i].pattern))
      && bs[|alts|] == PatternBinding(m.http.value.pattern)
  {
    match m.http
    case None => [DefaultBinding(m.goName)]
    case Some(rule) =>
      seq(|rule.additionalBindings|, i requires 0 <= i < |rule.additionalBindings| =>
        PatternBinding(rule.additionalBindings[i].pattern))
      + [PatternBinding(rule.pattern)]
  }

  /** The i-th binding of an annotated method is that of the i-th entry of alternates-then-rule. */
  lemma RuleBinding(m: RpcMethod, rule: HttpRule, i: int)
    requires m.http == Some(rule) && 0 <= i <= |rule.additionalBindings|
    ensures |Bindings(m)| == |rule.additionalBindings| + 1
    ensures Bindings(m)[i] == PatternBinding((rule.additionalBindings + [rule])[i].pattern)
  {
  }

  /**
   * getGoPackageName: the package of a registered file with the import path;
   * the scan takes the first such file in registry order, and fails (Go
   * panics) when there is none.
   */
  function PackageOf(files: seq<GoFile>, importPath: string): (r: Result<string, Fault>)
    ensures r.Failure? <==> forall i :: 0 <= i < |files| ==> files[i].goImportPath != importPath
    ensures r.Failure? ==> r.error == NoSuchPackage(importPath)
    ensures r.Success? ==> exists i :: (0 <= i < |files| && files[i].goImportPath == importPath
      && files[i].goPackageName == r.value
      && forall j :: 0 <= j < i ==> files[j].goImportPath != importPath)
  {
    if files == [] then Failure(NoSuchPackage(importPath))
    else if files[0].goImportPath == importPath then Success(files[0].goPackageName)
    else
      var r := PackageOf(files[1..], importPath);
      assert r.Success? ==> exists i :: (1 <= i < |files| && files[i].goImportPath == importPath
        && files[i].goPackageName == r.value
        && forall j :: 0 <= j < i ==> files[j].goImportPath != importPath)
      by {
        if r.Success? {
          var k :| 0 <= k < |files[1..]| && files[1..][k].goImportPath == importPath
            && files[1..][k].goPackageName == r.value
            && forall j :: 0 <= j < k ==> files[1..][j].goImportPath != importPath;
          assert forall j :: 1 <= j < k + 1 ==> files[j] == files[1..][j - 1];
        }
      }
      r
  }

  /** When the registry agrees on each import path's package, the order of the scan does not matter. */
  lemma PackageOfConsistent(files: seq<GoFile>, importPath: string, i: int)
    requires 0 <= i < |files| && files[i].goImportPath == importPath
    requires forall j, k :: (0 <= j < |files| && 0 <= k < |files| && files[j].goImportPath == files[k].goImportPath
      ==> files[j].goPackageName == files[k].goPackageName)
    ensures PackageOf(files, importPath) == Success(files[i].goPackageName)
  {
  }

  /**
   * getFullTypeName: the bare Go name when the message lives in the current
   * file's package, otherwise qualified by a registered package name.
   */
  function QualifiedName(gen: Plugin, t: GoIdent, thisFile: GoFile): (r: Result<string, Fault>)
    ensures thisFile.goImportPath == t.goImportPath ==> r == Success(t.goName)
    ensures thisFile.goImportPath != t.goImportPath && r.Success? ==>
      exists i :: 0 <= i < |gen.filesByPath| && gen.filesByPath[i].goImportPath == t.goImportPath
        && r.value == gen.filesByPath[i].goPackageName + "." + t.goName
    ensures r.Failure? <==> (thisFile.goImportPath != t.goImportPath
      && forall i :: 0 <= i < |gen.filesByPath| ==> gen.filesByPath[i].goImportPath != t.goImportPath)
    ensures r.Failure? ==> r.error == NoSuchPackage(t.goImportPath)
  {
    if thisFile.goImportPath == t.goImportPath then Success(t.goName)
    else
      var pkg :- PackageOf(gen.filesByPath, t.goImportPath);
      Success(pkg + "." + t.goName)
  }

  /** Both message types resolve and the path has no lone ":" segment. */
  predicate Describable(gen: Plugin, m: RpcMethod, thisFile: GoFile, b: Binding) {
    QualifiedName(gen, m.input, thisFile).Success? && QualifiedName(gen, m.output, thisFile).Success?
    && Rewritable(b.path)
  }

  /**
   * buildMethodDesc as a value: the descriptor of one binding with number
   * `num`, the request and reply types qualified and the path rewritten.
   */
  function Describe(gen: Plugin, m: RpcMethod, thisFile: GoFile, b: Binding, num: int): (r: Result<Route, Fault>)
    ensures r.Success? <==> Describable(gen, m, thisFile, b)
    ensures r.Success? ==>
      && r.value.name == m.goName && r.value.num == num
      && r.value.httpMethod == b.verb && r.value.body == b.body
  {
    var request :- QualifiedName(gen, m.input, thisFile);
    var reply :- QualifiedName(gen, m.output, thisFile);
    if !Rewritable(b.path) then Failure(SliceOutOfRange(b.path))
    else Success(Route(m.goName, num, request, reply, RewritePath(b.path), b.verb, b.body, "",
                       "", "", "", false, false, ""))
  }

  /**
   * The rest of a described route: qualified request and reply types, the
   * rewritten path (which has parameters exactly when the raw one does), and
   * zero values for the documentation and authorisation fields.
   */
  lemma DescribeSpec(gen: Plugin, m: RpcMethod, thisFile: GoFile, b: Binding, num: int)
    requires Describable(gen, m, thisFile, b)
    ensures var r := Describe(gen, m, thisFile, b, num).value;
      && r.request == QualifiedName(gen, m.input, thisFile).value
      && r.reply == QualifiedName(gen, m.output, thisFile).value
      && r.path == RewritePath(b.path)
      && PathHasParams(r.path) == PathHasParams(b.path)
      && r.summary == "" && r.description == "" && r.tags == ""
      && !r.deprecated && !r.requireAuth && r.authSchemes == ""
  {
    RewriteKeepsParams(b.path);
  }

  /**
   * The error of a binding that cannot be described is that of the first
   * failing step: the request type, then the reply type, then the path.
   */
  lemma DescribeError(gen: Plugin, m: RpcMethod, thisFile: GoFile, b: Binding, num: int)
    requires !Describable(gen, m, thisFile, b)
    ensures Describe(gen, m, thisFile, b, num).error == (if QualifiedName(gen, m.input, thisFile).Failure?
      then QualifiedName(gen, m.input, thisFile).error
      else if QualifiedName(gen, m.output, thisFile).Failure? then QualifiedName(gen, m.output, thisFile).error
      else SliceOutOfRange(b.path))
  {
  }

  /** Route values produced so far, and the per-name counter after them. */
  datatype Plan = Plan(routes: seq<Route>, counter: map<string, int>)

  /** The counter entry for a name; an absent entry reads as 0, as with a Go map. */
  function CountOf(counter: map<string, int>, name: string): int
  {
    if name in counter then counter[name] else 0
  }

  /** Describing bindings one after another, each taking the counter value and raising it by one. */
  function PlanBindings(gen: Plugin, m: RpcMethod, thisFile: GoFile, bs: seq<Binding>, counter: map<string, int>)
    : Result<Plan, Fault>
  {
    if bs == [] then Success(Plan([], counter))
    else
      var p :- PlanBindings(gen, m, thisFile, bs[..|bs| - 1], counter);
      var n := CountOf(p.counter, m.goName);
      var r :- Describe(gen, m, thisFile, bs[|bs| - 1], n);
      Success(Plan(p.routes + [r], p.counter[m.goName := n + 1]))
  }

  /** genMethod as a value. */
  function PlanMethod(gen: Plugin, m: RpcMethod, thisFile: GoFile, counter: map<string, int>): Result<Plan, Fault>
  {
    PlanBindings(gen, m, thisFile, Bindings(m), counter)
  }

  /** The aggregation loop of genService as a value: the methods' routes, concatenated in order. */
  function PlanService(gen: Plugin, thisFile: GoFile, ms: seq<RpcMethod>, counter: map<string, int>)
    : Result<Plan, Fault>
  {
    if ms == [] then Success(Plan([], counter))
    else
      var p :- PlanService(gen, thisFile, ms[..|ms| - 1], counter);
      var q :- PlanMethod(gen, ms[|ms| - 1], thisFile, p.counter);
      Success(Plan(p.routes + q.routes, q.counter))
  }

  /** Describing bindings in order succeeds exactly when every binding can be described. */
  lemma {:induction false} PlanBindingsSucceeds(gen: Plugin, m: RpcMethod, thisFile: GoFile, bs: seq<Binding>,
                                                counter: map<string, int>)
    ensures PlanBindings(gen, m, thisFile, bs, counter).Success?
      <==> forall i :: 0 <= i < |bs| ==> Describable(gen, m, thisFile, bs[i])
    decreases |bs|
  {
    if bs != [] {
      var front := bs[..|bs| - 1];
      PlanBindingsSucceeds(gen, m, thisFile, front, counter);
      assert forall i :: 0 <= i < |front| ==> bs[i] == front[i];
    }
  }

  /** One step of PlanBindings: the last binding is described after all the others. */
  lemma PlanBindingsLast(gen: Plugin, m: RpcMethod, thisFile: GoFile, bs: seq<Binding>, counter: map<string, int>)
    requires bs != [] && PlanBindings(gen, m, thisFile, bs, counter).Success?
    ensures var p := PlanBindings(gen, m, thisFile, bs[..|bs| - 1], counter);
      && p.Success?
      && var n := CountOf(p.value.counter, m.goName);
      && Describable(gen, m, thisFile, bs[|bs| - 1])
      && PlanBindings(gen, m, thisFile, bs, counter).value
         == Plan(p.value.routes + [Describe(gen, m, thisFile, bs[|bs| - 1], n).value], p.value.counter[m.goName := n + 1])
  {
  }

  /**
   * Describing bindings raises the counter of the method's name by their
   * number, leaves every other name's entry alone, and yields one route each.
   */
  lemma {:induction false} PlanBindingsCounter(gen: Plugin, m: RpcMethod, thisFile: GoFile, bs: seq<Binding>,
                                               counter: map<string, int>)
    requires PlanBindings(gen, m, thisFile, bs, counter).Success?
    ensures var p := PlanBindings(gen, m, thisFile, bs, counter).value;
      && |p.routes| == |bs|
      && p.counter == if bs == [] then counter else counter[m.goName := CountOf(counter, m.goName) + |bs|]
    decreases |bs|
  {
    if bs != [] {
      var front := bs[..|bs| - 1];
      PlanBindingsLast(gen, m, thisFile, bs, counter);
      PlanBindingsCounter(gen, m, thisFile, front, counter);
      var p := PlanBindings(gen, m, thisFile, front, counter).value;
      var n := CountOf(p.counter, m.goName);
      assert n == CountOf(counter, m.goName) + |front|;
      assert p.counter[m.goName := n + 1] == counter[m.goName := CountOf(counter, m.goName) + |bs|] by {
        if front != [] {
          assert p.counter == counter[m.goName := CountOf(counter, m.goName) + |front|];
        }
      }
    }
  }

  /**
   * The i-th route is the i-th binding described with number c0 + i, where c0
   * is the name's counter before.
   */
  lemma {:induction false} PlanBindingsAt(gen: Plugin, m: RpcMethod, thisFile: GoFile, bs: seq<Binding>,
                                          counter: map<string, int>, i: int)
    requires PlanBindings(gen, m, thisFile, bs, counter).Success?
    requires 0 <= i < |bs|
    ensures |PlanBindings(gen, m, thisFile, bs, counter).value.routes| == |bs|
    ensures Describable(gen, m, thisFile, bs[i])
    ensures PlanBindings(gen, m, thisFile, bs, counter).value.routes[i]
      == Describe(gen, m, thisFile, bs[i], CountOf(counter, m.goName) + i).value
    decreases |bs|
  {
    var front := bs[..|bs| - 1];
    PlanBindingsLast(gen, m, thisFile, bs, counter);
    PlanBindingsCounter(gen, m, thisFile, front, counter);
    PlanBindingsCounter(gen, m, thisFile, bs, counter);
    var p := PlanBindings(gen, m, thisFile, front, counter).value;
    if i < |front| {
      PlanBindingsAt(gen, m, thisFile, front, counter, i);
      assert bs[i] == front[i];
    } else {
      assert CountOf(p.counter, m.goName) == CountOf(counter, m.goName) + i;
    }
  }

  /**
   * genMethod as a value: the i-th route describes the i-th binding of
   * Bindings (alternates in listed order, then the primary, or the single
   * naming-convention binding), takes its verb and body marker and its
   * rewritten path, and is numbered c0 + i from the name's counter c0; the
   * counter for the name rises by the number of routes.
   */
  lemma PlanMethodAt(gen: Plugin, m: RpcMethod, thisFile: GoFile, counter: map<string, int>, i: int)
    requires PlanMethod(gen, m, thisFile, counter).Success?
    requires 0 <= i < |Bindings(m)|
    ensures var p, b := PlanMethod(gen, m, thisFile, counter).value, Bindings(m)[i];
      && |p.routes| == |Bindings(m)|
      && p.counter == counter[m.goName := CountOf(counter, m.goName) + |p.routes|]
      && p.routes[i].name == m.goName && p.routes[i].num == CountOf(counter, m.goName) + i
      && p.routes[i].httpMethod == b.verb && p.routes[i].body == b.body
      && Rewritable(b.path) && p.routes[i].path == RewritePath(b.path)
  {
    var bs := Bindings(m);
    PlanBindingsCounter(gen, m, thisFile, bs, counter);
    PlanBindingsAt(gen, m, thisFile, bs, counter, i);
    DescribeSpec(gen, m, thisFile, bs[i], CountOf(counter, m.goName) + i);
  }

  /** Every route of a method carries the method's name and the counter rises by their number. */
  lemma PlanMethodNamed(gen: Plugin, m: RpcMethod, thisFile: GoFile, counter: map<string, int>)
    requires PlanMethod(gen, m, thisFile, counter).Success?
    ensures var p := PlanMethod(gen, m, thisFile, counter).value;
      && |p.routes| == |Bindings(m)|
      && p.counter == counter[m.goName := CountOf(counter, m.goName) + |p.routes|]
      && forall i :: 0 <= i < |p.routes| ==> p.routes[i].name == m.goName
  {
    PlanMethodAt(gen, m, thisFile, counter, 0);
    var p := PlanMethod(gen, m, thisFile, counter).value;
    forall i | 0 <= i < |p.routes|
      ensures p.routes[i].name == m.goName
    {
      PlanMethodAt(gen, m, thisFile, counter, i);
    }
  }

  /** How many of the routes carry the given method name. */
  function Occurrences(routes: seq<Route>, name: string): nat
  {
    if routes == [] then 0
    else Occurrences(routes[..|routes| - 1], name) + (if routes[|routes| - 1].name == name then 1 else 0)
  }

  lemma {:induction false} OccurrencesAppend(a: seq<Route>, b: seq<Route>, name: string)
    ensures Occurrences(a + b, name) == Occurrences(a, name) + Occurrences(b, name)
    decreases |b|
  {
    if b == [] {
      assert a + b == a;
    } else {
      assert (a + b)[..|a + b| - 1] == a + b[..|b| - 1];
      OccurrencesAppend(a, b[..|b| - 1], name);
    }
  }

  lemma {:induction false} OccurrencesUniform(routes: seq<Route>, name: string, x: string)
    requires forall i :: 0 <= i < |routes| ==> routes[i].name == name
    ensures Occurrences(routes, x) == if x == name then |routes| else 0
  {
    if routes != [] {
      OccurrencesUniform(routes[..|routes| - 1], name, x);
    }
  }

  /** A route counts towards the occurrences of its name in every longer prefix. */
  lemma OccurrencesGrow(routes: seq<Route>, i: int, j: int)
    requires 0 <= i < j <= |routes|
    ensures Occurrences(routes[..j], routes[i].name) > Occurrences(routes[..i], routes[i].name)
  {
    var x := routes[i].name;
    assert routes[..j] == routes[..i] + ([routes[i]] + routes[i + 1..j]);
    OccurrencesAppend(routes[..i], [routes[i]] + routes[i + 1..j], x);
    OccurrencesAppend([routes[i]], routes[i + 1..j], x);
    assert Occurrences([routes[i]], x) == 1 by {
      assert [routes[i]][..0] == [];
    }
  }

  /** One step of PlanService: the last method is planned after all the others. */
  lemma PlanServiceLast(gen: Plugin, thisFile: GoFile, ms: seq<RpcMethod>, counter: map<string, int>)
    requires ms != [] && PlanService(gen, thisFile, ms, counter).Success?
    ensures var p := PlanService(gen, thisFile, ms[..|ms| - 1], counter);
      && p.Success?
      && var q := PlanMethod(gen, ms[|ms| - 1], thisFile, p.value.counter);
      && q.Success?
      && PlanService(gen, thisFile, ms, counter).value == Plan(p.value.routes + q.value.routes, q.value.counter)
  {
  }

  /**
   * The counter is never reset: after a service, each name's count has risen
   * by exactly its number of routes.
   */
  lemma {:induction false} PlanServiceCount(gen: Plugin, thisFile: GoFile, ms: seq<RpcMethod>,
                                            counter: map<string, int>, x: string)
    requires PlanService(gen, thisFile, ms, counter).Success?
    ensures var p := PlanService(gen, thisFile, ms, counter).value;
      CountOf(p.counter, x) == CountOf(counter, x) + Occurrences(p.routes, x)
  {
    if ms != [] {
      var m := ms[|ms| - 1];
      PlanServiceLast(gen, thisFile, ms, counter);
      PlanServiceCount(gen, thisFile, ms[..|ms| - 1], counter, x);
      var p := PlanService(gen, thisFile, ms[..|ms| - 1], counter).value;
      PlanMethodNamed(gen, m, thisFile, p.counter);
      var q := PlanMethod(gen, m, thisFile, p.counter).value;
      OccurrencesAppend(p.routes, q.routes, x);
      OccurrencesUniform(q.routes, m.goName, x);
    }
  }

  /**
   * Across a service, the routes of one method name are numbered
   * consecutively from that name's count before the service: each route's
   * number is that count plus the routes of its name before it.
   */
  lemma {:induction false} PlanServiceAt(gen: Plugin, thisFile: GoFile, ms: seq<RpcMethod>,
                                         counter: map<string, int>, k: int)
    requires PlanService(gen, thisFile, ms, counter).Success?
    requires 0 <= k < |PlanService(gen, thisFile, ms, counter).value.routes|
    ensures var routes := PlanService(gen, thisFile, ms, counter).value.routes;
      routes[k].num == CountOf(counter, routes[k].name) + Occurrences(routes[..k], routes[k].name)
  {
    PlanServiceLast(gen, thisFile, ms, counter);
    var p := PlanService(gen, thisFile, ms[..|ms| - 1], counter).value;
    if k < |p.routes| {
      PlanServiceAt(gen, thisFile, ms[..|ms| - 1], counter, k);
      var q := PlanMethod(gen, ms[|ms| - 1], thisFile, p.counter).value;
      assert (p.routes + q.routes)[..k] == p.routes[..k];
    } else {
      PlanServiceAtLastMethod(gen, thisFile, ms, counter, k);
    }
  }

  /** The numbering of PlanServiceAt, for a route of the service's last method. */
  lemma PlanServiceAtLastMethod(gen: Plugin, thisFile: GoFile, ms: seq<RpcMethod>,
                                counter: map<string, int>, k: int)
    requires ms != [] && PlanService(gen, thisFile, ms, counter).Success?
    requires |PlanService(gen, thisFile, ms[..|ms| - 1], counter).value.routes| <= k
    requires k < |PlanService(gen, thisFile, ms, counter).value.routes|
    ensures var routes := PlanService(gen, thisFile, ms, counter).value.routes;
      routes[k].num == CountOf(counter, routes[k].name) + Occurrences(routes[..k], routes[k].name)
  {
    var m := ms[|ms| - 1];
    PlanServiceLast(gen, thisFile, ms, counter);
    var p := PlanService(gen, thisFile, ms[..|ms| - 1], counter).value;
    var q := PlanMethod(gen, m, thisFile, p.counter).value;
    var i := k - |p.routes|;
    PlanMethodNamed(gen, m, thisFile, p.counter);
    PlanMethodAt(gen, m, thisFile, p.counter, i);
    PlanServiceCount(gen, thisFile, ms[..|ms| - 1], counter, m.goName);
    NumberingOfTail(counter, p.routes, p.counter, q.routes, m.goName, k);
  }

  /**
   * Routes of one name numbered on from that name's count, appended after
   * routes that brought the count there, satisfy the numbering of
   * PlanServiceAt.
   */
  lemma NumberingOfTail(base: map<string, int>, a: seq<Route>, mid: map<string, int>, b: seq<Route>,
                        x: string, k: int)
    requires CountOf(mid, x) == CountOf(base, x) + Occurrences(a, x)
    requires |a| <= k < |a| + |b|
    requires forall j :: 0 <= j < |b| ==> b[j].name == x
    requires b[k - |a|].num == CountOf(mid, x) + (k - |a|)
    ensures var routes := a + b;
      routes[k].num == CountOf(base, routes[k].name) + Occurrences(routes[..k], routes[k].name)
  {
    OccurrencesBeforeTail(a, b, x, k - |a|);
    assert (a + b)[k] == b[k - |a|];
  }

  /** Routes all of one name, appended after others, are counted one by one. */
  lemma OccurrencesBeforeTail(a: seq<Route>, b: seq<Route>, x: string, i: int)
    requires 0 <= i <= |b| && forall j :: 0 <= j < |b| ==> b[j].name == x
    ensures Occurrences((a + b)[..|a| + i], x) == Occurrences(a, x) + i
  {
    assert (a + b)[..|a| + i] == a + b[..i];
    OccurrencesAppend(a, b[..i], x);
    OccurrencesUniform(b[..i], x, x);
  }

  /** Within a service, two routes of one method name never share a number. */
  lemma PlanServiceNumbersDistinct(gen: Plugin, thisFile: GoFile, ms: seq<RpcMethod>, counter: map<string, int>,
                                   i: int, j: int)
    requires PlanService(gen, thisFile, ms, counter).Success?
    requires 0 <= i < j < |PlanService(gen, thisFile, ms, counter).value.routes|
    ensures var routes := PlanService(gen, thisFile, ms, counter).value.routes;
      routes[i].name == routes[j].name ==> routes[i].num < routes[j].num
  {
    var routes := PlanService(gen, thisFile, ms, counter).value.routes;
    PlanServiceAt(gen, thisFile, ms, counter, i);
    PlanServiceAt(gen, thisFile, ms, counter, j);
    OccurrencesGrow(routes, i, j);
  }

  /** Describing the next binding after the ones before it extends the plan by its route. */
  lemma PlanBindingsStep(gen: Plugin, m: RpcMethod, thisFile: GoFile, bs: seq<Binding>, i: int,
                         counter: map<string, int>, plan: Plan)
    requires 0 <= i < |bs| && Describable(gen, m, thisFile, bs[i])
    requires PlanBindings(gen, m, thisFile, bs[..i], counter) == Success(plan)
    ensures var n := CountOf(plan.counter, m.goName);
      PlanBindings(gen, m, thisFile, bs[..i + 1], counter)
        == Success(Plan(plan.routes + [Describe(gen, m, thisFile, bs[i], n).value], plan.counter[m.goName := n + 1]))
  {
    assert bs[..i + 1][..i] == bs[..i];
  }

  /** A binding that cannot be described makes the whole list fail. */
  lemma PlanBindingsFails(gen: Plugin, m: RpcMethod, thisFile: GoFile, bs: seq<Binding>, i: int,
                          counter: map<string, int>)
    requires 0 <= i < |bs| && !Describable(gen, m, thisFile, bs[i])
    ensures PlanBindings(gen, m, thisFile, bs, counter).Failure?
  {
    PlanBindingsSucceeds(gen, m, thisFile, bs, counter);
  }

  /** Planning the next method of a service after the ones before it extends the plan by its routes. */
  lemma PlanServiceStep(gen: Plugin, thisFile: GoFile, ms: seq<RpcMethod>, i: int, counter: map<string, int>,
                        plan: Plan, q: Plan)
    requires 0 <= i < |ms|
    requires PlanService(gen, thisFile, ms[..i], counter) == Success(plan)
    requires PlanMethod(gen, ms[i], thisFile, plan.counter) == Success(q)
    ensures PlanService(gen, thisFile, ms[..i + 1], counter) == Success(Plan(plan.routes + q.routes, q.counter))
  {
    assert ms[..i + 1][..i] == ms[..i];
  }

  /** When the next method of a service cannot be planned, the service cannot be planned. */
  lemma PlanServiceStepFails(gen: Plugin, thisFile: GoFile, ms: seq<RpcMethod>, i: int, counter: map<string, int>,
                             plan: Plan)
    requires 0 <= i < |ms|
    requires PlanService(gen, thisFile, ms[..i], counter) == Success(plan)
    requires PlanMethod(gen, ms[i], thisFile, plan.counter).Failure?
    ensures PlanService(gen, thisFile, ms, counter).Failure?
  {
    assert ms[..i + 1][..i] == ms[..i];
    PlanServicePrefixFails(gen, thisFile, ms, i + 1, counter);
  }

  /** A service whose first k methods cannot be planned cannot be planned. */
  lemma {:induction false} PlanServicePrefixFails(gen: Plugin, thisFile: GoFile, ms: seq<RpcMethod>, k: int,
                                                  counter: map<string, int>)
    requires 0 <= k <= |ms| && PlanService(gen, thisFile, ms[..k], counter).Failure?
    ensures PlanService(gen, thisFile, ms, counter).Failure?
    decreases |ms|
  {
    if k < |ms| {
      var front := ms[..|ms| - 1];
      assert front[..k] == ms[..k];
      PlanServicePrefixFails(gen, thisFile, front, k, counter);
    } else {
      assert ms[..k] == ms;
    }
  }

  /** Within a service, no two routes share a gin handler name. */
  lemma PlanServiceHandlersDistinct(gen: Plugin, thisFile: GoFile, ms: seq<RpcMethod>, counter: map<string, int>,
                                    i: int, j: int)
    requires PlanService(gen, thisFile, ms, counter).Success?
    requires 0 <= i < j < |PlanService(gen, thisFile, ms, counter).value.routes|
    ensures var routes := PlanService(gen, thisFile, ms, counter).value.routes;
      routes[i].HandlerName() != routes[j].HandlerName()
  {
    var routes := PlanService(gen, thisFile, ms, counter).value.routes;
    PlanServiceNumbersDistinct(gen, thisFile, ms, counter, i, j);
    if routes[i].HandlerName() == routes[j].HandlerName() {
      HandlerNameInjective(routes[i], routes[j]);
    }
  }

  /**
   * Only the patterns of an annotation decide the routes: its body and
   * response-body fields, and the alternates nested inside alternates, make
   * no difference.
   */
  lemma PlanMethodUsesPatternsOnly(gen: Plugin, m1: RpcMethod, m2: RpcMethod, thisFile: GoFile,
                                   counter: map<string, int>)
    requires m1.goName == m2.goName && m1.input == m2.input && m1.output == m2.output
    requires m1.http.Some? && m2.http.Some? && m1.http.value.pattern == m2.http.value.pattern
    requires |m1.http.value.additionalBindings| == |m2.http.value.additionalBindings|
    requires forall i :: 0 <= i < |m1.http.value.additionalBindings| ==>
      m1.http.value.additionalBindings[i].pattern == m2.http.value.additionalBindings[i].pattern
    ensures PlanMethod(gen, m1, thisFile, counter) == PlanMethod(gen, m2, thisFile, counter)
  {
    assert Bindings(m1) == Bindings(m2);
    PlanBindingsSameSignature(gen, m1, m2, thisFile, Bindings(m1), counter);
  }

  /** Describing bindings reads only the method's name and message types. */
  lemma {:induction false} PlanBindingsSameSignature(gen: Plugin, m1: RpcMethod, m2: RpcMethod, thisFile: GoFile,
                                                     bs: seq<Binding>, counter: map<string, int>)
    requires m1.goName == m2.goName && m1.input == m2.input && m1.output == m2.output
    ensures PlanBindings(gen, m1, thisFile, bs, counter) == PlanBindings(gen, m2, thisFile, bs, counter)
    decreases |bs|
  {
    if bs != [] {
      PlanBindingsSameSignature(gen, m1, m2, thisFile, bs[..|bs| - 1], counter);
    }
  }
}
