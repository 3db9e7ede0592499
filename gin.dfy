/**
 * The generator of gin.go: the registry lookups, and a generator object
 * holding the run-wide per-name counter (the package variable `methodSets`)
 * whose methods build route descriptors for a binding, for a method and for
 * a service. Each is proved against the value-level plan of the Routing
 * module.
 */
module Gin {
  import opened Wrappers
  import opened Template
  import opened Descriptors
  import opened Routing

  /** getGoPackageName: the package of the first registered file with the import path. */
  method GetGoPackageName(gen: Plugin, goImportPath: string) returns (r: Result<string, Fault>)
    ensures r == PackageOf(gen.filesByPath, goImportPath)
  {
    var files := gen.filesByPath;
    for i := 0 to |files|
      invariant PackageOf(files, goImportPath) == PackageOf(files[i..], goImportPath)
    {
      assert files[i..][1..] == files[i + 1..];
      if files[i].goImportPath == goImportPath {
        return Success(files[i].goPackageName);
      }
    }
    return Failure(NoSuchPackage(goImportPath));
  }

  /** getFullTypeName: the Go name, qualified when the message lives in another package. */
  method GetFullTypeName(gen: Plugin, t: GoIdent, thisFile: GoFile) returns (r: Result<string, Fault>)
    ensures r == QualifiedName(gen, t, thisFile)
  {
    if thisFile.goImportPath == t.goImportPath {
      return Success(t.goName);
    }
    var pkg :- GetGoPackageName(gen, t.goImportPath);
    return Success(pkg + "." + t.goName);
  }

  /** The generator's state: how many descriptors each method name has had so far. */
  class Generator {
    var methodSets: map<string, int>

    constructor ()
      ensures methodSets == map[]
    {
      methodSets := map[];
    }

    /**
     * buildMethodDesc: a descriptor numbered by the counter for the method's
     * name, with qualified types and rewritten path. The deferred increment
     * runs whether or not the build panics, so the counter rises in both cases.
     */
    method BuildMethodDesc(gen: Plugin, m: RpcMethod, httpMethod: string, path: string, thisFile: GoFile)
      returns (r: Result<MethodDesc, Fault>)
      modifies this
      ensures var n := CountOf(old(methodSets), m.goName);
        methodSets == old(methodSets)[m.goName := n + 1]
      ensures r.Success? <==> Describable(gen, m, thisFile, Binding(httpMethod, path, ""))
      ensures r.Success? ==> (fresh(r.value)
        && r.value.View() == Describe(gen, m, thisFile, Binding(httpMethod, path, ""), CountOf(old(methodSets), m.goName)).value)
    {
      var n := CountOf(methodSets, m.goName);
      methodSets := methodSets[m.goName := n + 1];
      var request :- GetFullTypeName(gen, m.input, thisFile);
      var reply :- GetFullTypeName(gen, m.output, thisFile);
      var md := new MethodDesc(m.goName, n, request, reply, path, httpMethod);
      var ok := md.InitPathParams();
      if !ok {
        return Failure(SliceOutOfRange(path));
      }
      return Success(md);
    }

    /** defaultMethod: the naming-convention binding, with the "*" body marker. */
    method DefaultMethod(gen: Plugin, m: RpcMethod, thisFile: GoFile) returns (r: Result<MethodDesc, Fault>)
      modifies this
      ensures var n := CountOf(old(methodSets), m.goName);
        methodSets == old(methodSets)[m.goName := n + 1]
      ensures r.Success? <==> Describable(gen, m, thisFile, DefaultBinding(m.goName))
      ensures r.Success? ==> (fresh(r.value)
        && r.value.View() == Describe(gen, m, thisFile, DefaultBinding(m.goName), CountOf(old(methodSets), m.goName)).value)
    {
      var b := DefaultBinding(m.goName);
      r := BuildMethodDesc(gen, m, b.verb, b.path, thisFile);
      if r.Success? {
        r.value.body := "*";
      }
    }

    /** buildHTTPRule: the binding of the rule's pattern; the rule's body field is not read. */
    method BuildHTTPRule(gen: Plugin, m: RpcMethod, rule: HttpRule, thisFile: GoFile)
      returns (r: Result<MethodDesc, Fault>)
      modifies this
      ensures var n := CountOf(old(methodSets), m.goName);
        methodSets == old(methodSets)[m.goName := n + 1]
      ensures r.Success? <==> Describable(gen, m, thisFile, PatternBinding(rule.pattern))
      ensures r.Success? ==> (fresh(r.value)
        && r.value.View() == Describe(gen, m, thisFile, PatternBinding(rule.pattern), CountOf(old(methodSets), m.goName)).value)
    {
      var b := PatternBinding(rule.pattern);
      r := BuildMethodDesc(gen, m, b.verb, b.path, thisFile);
    }

    /**
     * genMethod: one descriptor per alternate binding in order, then the
     * primary; or the single naming-convention descriptor when the method has
     * no annotation. The descriptors and the counter are those of PlanMethod.
     */
    method GenMethod(gen: Plugin, m: RpcMethod, thisFile: GoFile) returns (r: Result<seq<MethodDesc>, Fault>)
      modifies this
      ensures var plan := PlanMethod(gen, m, thisFile, old(methodSets));
        && (r.Success? <==> plan.Success?)
        && (r.Success? ==>
          && Describes(r.value, plan.value.routes)
          && methodSets == plan.value.counter)
    {
      if m.http.Some? {
        r := GenAnnotated(gen, m, m.http.value, thisFile);
        return;
      }
      var bs := Bindings(m);
      var md := DefaultMethod(gen, m, thisFile);
      if md.Failure? {
        PlanBindingsFails(gen, m, thisFile, bs, 0, old(methodSets));
        return Failure(md.error);
      }
      PlanBindingsStep(gen, m, thisFile, bs, 0, old(methodSets), Plan([], old(methodSets)));
      assert bs[..1] == bs;
      return Success([md.value]);
    }

    /**
     * The annotated branch of genMethod: one buildHTTPRule call per
     * alternate as listed and a last one for the rule itself, made here by a
     * single loop over the alternates followed by the rule.
     */
    method GenAnnotated(gen: Plugin, m: RpcMethod, rule: HttpRule, thisFile: GoFile)
      returns (r: Result<seq<MethodDesc>, Fault>)
      requires m.http == Some(rule)
      modifies this
      ensures var plan := PlanMethod(gen, m, thisFile, old(methodSets));
        && (r.Success? <==> plan.Success?)
        && (r.Success? ==>
          && Describes(r.value, plan.value.routes)
          && methodSets == plan.value.counter)
    {
      var bs := Bindings(m);
      var rules := rule.additionalBindings + [rule];
      var methods: seq<MethodDesc> := [];
      ghost var plan := Plan([], old(methodSets));
      for i := 0 to |rules|
        invariant PlanBindings(gen, m, thisFile, bs[..i], old(methodSets)) == Success(plan)
        invariant Describes(methods, plan.routes) && methodSets == plan.counter
      {
        RuleBinding(m, rule, i);
        var md := BuildHTTPRule(gen, m, rules[i], thisFile);
        if md.Failure? {
          PlanBindingsFails(gen, m, thisFile, bs, i, old(methodSets));
          return Failure(md.error);
        }
        PlanBindingsStep(gen, m, thisFile, bs, i, old(methodSets), plan);
        DescribesSnoc(methods, md.value, plan.routes);
        methods := methods + [md.value];
        plan := Plan(plan.routes + [md.value.View()], methodSets);
      }
      assert bs[..|bs|] == bs;
      return Success(methods);
    }

    /**
     * The aggregation loop of genService: the service record collects the
     * descriptors of its methods in order, continuing the counter.
     */
    method GenService(gen: Plugin, thisFile: GoFile, s: Service) returns (r: Result<ServiceDesc, Fault>)
      modifies this
      ensures var plan := PlanService(gen, thisFile, s.methods, old(methodSets));
        && (r.Success? <==> plan.Success?)
        && (r.Success? ==>
          && fresh(r.value)
          && r.value.name == s.goName && r.value.fullName == s.fullName && r.value.filePath == thisFile.path
          && Describes(r.value.methods, plan.value.routes)
          && methodSets == plan.value.counter)
    {
      var sd := new ServiceDesc(s.goName, s.fullName, thisFile.path);
      ghost var plan := Plan([], old(methodSets));
      for i := 0 to |s.methods|
        invariant PlanService(gen, thisFile, s.methods[..i], old(methodSets)) == Success(plan)
        invariant Describes(sd.methods, plan.routes) && methodSets == plan.counter
        invariant fresh(sd) && sd.name == s.goName && sd.fullName == s.fullName && sd.filePath == thisFile.path
      {
        var ms := GenMethod(gen, s.methods[i], thisFile);
        if ms.Failure? {
          PlanServiceStepFails(gen, thisFile, s.methods, i, old(methodSets), plan);
          return Failure(ms.error);
        }
        assert Describes(sd.methods, plan.routes);
        ghost var q := PlanMethod(gen, s.methods[i], thisFile, plan.counter).value;
        PlanServiceStep(gen, thisFile, s.methods, i, old(methodSets), plan, q);
        DescribesAppend(sd.methods, ms.value, plan.routes, q.routes);
        sd.methods := sd.methods + ms.value;
        plan := Plan(plan.routes + q.routes, q.counter);
      }
      assert s.methods[..|s.methods|] == s.methods;
      return Success(sd);
    }
  }
}
