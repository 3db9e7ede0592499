# protoc-gen-go-gin route resolution, modelled in Dafny

protoc-gen-go-gin is a `protoc` plugin. It turns the RPC methods of a protobuf service into gin HTTP routes. This project models the part of the plugin that decides those routes. For each RPC method it builds one or more `method` records, each holding:

- the handler name and its sequence number;
- the fully qualified request and reply types;
- the HTTP verb;
- the gin-style path.

The project also models the helpers the code template calls on those records.

Modules:

- `Wrappers`: `Option` and `Result`. A Go `panic` in the plugin is modelled as a `Failure` carrying a `Descriptors.Fault`.
- `Descriptors`: the inputs as plain values:
  - an RPC method (Go name, input and output message identifiers, optional `google.api.HttpRule`);
  - the `HttpRule` pattern oneof and its alternates (`additional_bindings`);
  - the registry of generated files;
  - a service.
- `Strings`: the ASCII subset of Go's `strings` package that the code uses (`Split`, `Join`, `ToLower`, `ToUpper`, `TrimSpace`, decimal formatting).
- `Naming`: `toSnakeCase`. Its two regular-expression passes are written as leftmost, non-overlapping scans.
- `PathParams`: the segment rewrite of `initPathParams` and the segment test of `HasPathParams`, as functions on strings.
- `Template`: the `method` record as class `MethodDesc`, with its helpers, and the `service` record as class `ServiceDesc`.
  - `Route` is the value view of a `MethodDesc`.
  - `Describes` ties a sequence of records to a sequence of such views.
- `Routing`: the decisions in `gin.go` as pure functions, with their properties proved as lemmas:
  - the verb table and the naming-convention path;
  - the extraction of a binding from a rule pattern;
  - type-name qualification;
  - `Plan*`, which says what `genMethod` and the `genService` loop produce and how they move the per-name counter.
- `Gin`:
  - `GetGoPackageName` and `GetFullTypeName`;
  - class `Generator`, holding the run-wide `methodSets` counter. Its methods `BuildMethodDesc`, `DefaultMethod`, `BuildHTTPRule`, `GenMethod` and `GenService` are each proved against the `Routing` functions.

## Model

| member | source | states |
|---|---|---|
| Naming.ToSnakeCase | gin.go:201-209 | the snake-case form contains no uppercase letter and no '-' |
| Naming.SnakeCaseKeepsLetters | gin.go:204-209 | ignoring '_' and '-', the output is exactly the input's characters, lowercased, in order (the passes only insert separators) |
| Naming.CamelWordsToSnakeCase | gin.go:201-209 | a name made of capitalised words becomes those words lowercased and joined by '_' |
| Naming.CamelWordsTokens | gin.go:122 | splitting that snake-case form on '_' gives back the lowercased words |
| Naming.ThreeWordsToSnakeCase | gin.go:201-209 | three capitalised words a+b+c become lower(a)_lower(b)_lower(c) |
| Naming.AcronymWordToSnakeCase | gin.go:201-209 | an all-capitals acronym running into a capitalised word is split before the word: lower(acr)_lower(w) |
| Naming.SnakeCaseGetBlogArticles | gin.go:204-209 | "GetBlogArticles" becomes "get_blog_articles" |
| Naming.SnakeCaseHttpServer | gin.go:201-209 | "HTTPServer" becomes "http_server" (acronym rule before camel rule) |
| Naming.SnakeCaseListV2Items | gin.go:202-209 | "ListV2Items" becomes "list_v2_items" (a digit before a capital is a boundary) |
| Routing.DefaultVerb | gin.go:129-143 | GET iff the key is GET/FIND/QUERY/LIST/SEARCH; POST iff POST/CREATE or not a verb word; PUT iff PUT/UPDATE; PATCH iff PATCH; DELETE iff DELETE |
| Routing.DefaultBinding | gin.go:121-156 | the verb comes from the uppercased first token; with two or more tokens the path is tokens[1..] joined by '/', whatever the verb; one token is its own path unless it is a verb word, which gives ""; body is "*" |
| Routing.DefaultBindingOfWords | gin.go:121-151 | for a name made of capitalised words: verb of the uppercased first word, path of the remaining words lowercased and joined by '/' |
| Routing.DefaultBindingSayHello | gin.go:145-151 | "SayHello" gives POST "hello" although "say" is no verb word |
| Routing.DefaultBindingPing | gin.go:145-151 | "Ping" gives POST "ping" |
| Routing.DefaultBindingGet | gin.go:145-151 | "Get" gives GET "" |
| Routing.DefaultBindingGetBlogArticles | gin.go:118-156 | "GetBlogArticles" gives GET "blog/articles" with body "*" |
| Routing.PatternBinding | gin.go:158-185 | Get/Put/Post/Delete/Patch give that verb and path; Custom gives (kind, path); Unset gives "" and "" without failing; body is always "" |
| Routing.Bindings | gin.go:100-116 | with a rule: one binding per alternate in listed order, then the rule's own last (length alternates+1); without one: exactly the naming-convention binding |
| Routing.RuleBinding | gin.go:106-109 | the i-th binding is that of the i-th entry of alternates-then-rule; nested alternates are not followed |
| Routing.PackageOf | gin.go:24-32 | fails with "no such package" iff no registered file has the import path; otherwise the package name of a registered file with that import path |
| Routing.PackageOfConsistent | gin.go:24-32 | when registered files with equal import paths agree on the package, the result is that of any matching file (scan order does not matter) |
| Routing.QualifiedName | gin.go:34-42 | the bare Go name when the import path is the current file's; otherwise "pkg." + name; fails exactly when the foreign package is not registered |
| Routing.Describe | gin.go:187-199 | succeeds iff both types qualify and the path can be rewritten; the route has the method's name, the given number, the binding's verb and body |
| Routing.DescribeSpec | gin.go:187-199 | a described route has the qualified request and reply, the rewritten path, and zero documentation and auth fields |
| Routing.DescribeError | gin.go:187-199 | a failed description reports the first failing step: request type, then reply type, then the path |
| Routing.PlanBindingsCounter | gin.go:22 | describing n bindings yields n routes and raises the method's counter entry by exactly n, leaving every other name alone |
| Routing.PlanMethodAt | gin.go:100-116 | the i-th route of genMethod is numbered counter+i, carries the i-th binding's verb and body and its rewritten path; the counter rises by the number of routes |
| Routing.PlanMethodNamed | gin.go:100-116 | every route of a method carries the method's Go name |
| Routing.PlanMethodUsesPatternsOnly | gin.go:158-185 | two annotations with the same patterns give the same routes: body, response_body and nested alternates make no difference |
| Routing.PlanServiceCount | gin.go:94-96 | after a service, a name's counter entry equals its value before plus the number of that name's routes |
| Routing.PlanServiceAt | gin.go:188-191 | each route's number is its name's counter before the service plus the routes of that name before it (consecutive numbering, shared across methods of one name) |
| Routing.PlanServiceNumbersDistinct | gin.go:188-191 | two routes of one name within a service have strictly increasing numbers |
| Routing.PlanServiceHandlersDistinct | template.go:72-74 | no two routes of a service share a handler name |
| Routing.PlanServiceStep | gin.go:94-96 | the routes of the first i+1 methods are those of the first i followed by method i's, with the counter threaded through |
| Routing.PlanServicePrefixFails | gin.go:94-96 | a failure in some method fails the whole service |
| PathParams.RewriteBySegment | template.go:88-96 | rewriting keeps the number of '/'-segments; literal and empty segments are unchanged; {x} becomes :x; :ab..c becomes :ab..; no segment is brace-wrapped afterwards |
| PathParams.RewriteKeepsParams | template.go:77-96 | a path has parameters after the rewrite iff it had them before |
| PathParams.RewriteBraceExample | template.go:88-96 | "/v1/{id}/items/{itemId}" becomes "/v1/:id/items/:itemId" |
| PathParams.NoParamsExample | template.go:77-85 | "/v1/items" has no path parameters |
| PathParams.RewriteNotIdempotent | template.go:91-92 | "/v1/:id" becomes "/v1/:i", then "/v1/:", which can no longer be rewritten (a lone ':' slices out of range) |
| Template.Route.HandlerName | template.go:72-74 | the name, then '_', then the decimal number |
| Template.HandlerNameInjective | template.go:72-74 | equal handler names mean equal name and number |
| Template.NoUnderscoreAfterName | template.go:72-74 | no '_' follows the separator, so the separator is the last '_' |
| Template.MethodDesc.constructor | gin.go:189-196 | a record with name, number, types, path and verb set and every other field zero |
| Template.MethodDesc.HandlerName | template.go:72-74 | the handler name of the record's view |
| Template.MethodDesc.HasPathParams | template.go:77-85 | true iff some non-empty segment is brace-wrapped or starts with ':' |
| Template.MethodDesc.InitPathParams | template.go:88-96 | when no segment is a lone ':', the path becomes its segment-wise rewrite; otherwise it fails (the Go slice panics) |
| Template.MethodDesc.GetSwaggerSummary | template.go:99-104 | the summary, or the name when the summary is empty |
| Template.MethodDesc.GetSwaggerDescription | template.go:107-112 | the description, or "<name> API endpoint"; never empty |
| Template.MethodDesc.GetSwaggerTags | template.go:115-120 | the tags, or "api"; never empty |
| Template.MethodDesc.GetSwaggerMethod | template.go:123-125 | the verb with every letter lowercased, same length and same uppercase form |
| Template.MethodDesc.GetSwaggerPath | template.go:128-133 | always starts with '/'; the path itself if it already does; otherwise '/' then the path |
| Template.SwaggerPathIdempotent | template.go:128-133 | applying the leading-slash normalisation twice changes nothing |
| Template.MethodDesc.IsQueryMethod | template.go:136-138 | true iff the verb is GET or DELETE |
| Template.MethodDesc.GetSwaggerParamComment | template.go:141-150 | the "query" parameter comment for query verbs, the "body" one otherwise |
| Template.SecurityLine | template.go:157-162 | at most one line, and none iff the trimmed scheme is empty |
| Template.SecurityLinesShape | template.go:153-165 | at most one line per scheme, each "// @Security " followed by a non-empty trimmed scheme |
| Template.MethodDesc.GetAuthComment | template.go:153-165 | "" without auth or schemes; otherwise the security lines of the ','-separated schemes in order, joined by newlines |
| Template.ServiceDesc.constructor | gin.go:88-92 | a service record with the given name, full name and file path, and no methods |
| Template.DescribesAppend | gin.go:94-96 | records describing two route lists, concatenated, describe the concatenation |
| Gin.GetGoPackageName | gin.go:24-32 | the scan returns the first matching file's package, or fails with "no such package": exactly PackageOf |
| Gin.GetFullTypeName | gin.go:34-42 | exactly QualifiedName |
| Gin.Generator.constructor | gin.go:22 | the counter starts empty (every name reads 0) |
| Gin.Generator.BuildMethodDesc | gin.go:187-199 | the counter entry of the name rises by one whether or not the build fails (deferred increment); succeeds iff Describable; the new record views as Describe with the old count |
| Gin.Generator.DefaultMethod | gin.go:121-156 | as BuildMethodDesc for the naming-convention binding, with body "*" |
| Gin.Generator.BuildHTTPRule | gin.go:158-185 | as BuildMethodDesc for the binding of the rule's pattern |
| Gin.Generator.GenMethod | gin.go:100-116 | succeeds iff PlanMethod does; the records describe its routes in order and the counter is its counter |
| Gin.Generator.GenAnnotated | gin.go:104-111 | the annotated branch: the same as PlanMethod, built by one loop over the alternates and then the rule |
| Gin.Generator.GenService | gin.go:88-96 | succeeds iff PlanService does; the fresh service record carries the service's name, full name and file path, its records describe the concatenated routes, and the counter is PlanService's |

## Left out

- `generateFile` (gin.go:44-80) is not modelled. It emits Go source through the code-generation API, and its imports come from a map iterated in random order.
- The output side of `genService` is not modelled: the `g.P` calls, the deprecation comment (gin.go:83-86) and `sd.execute()` (gin.go:97).
- `service.execute`, `InterfaceName` and the `MethodSet`/`DefaultAuth` fields of the service record (template.go:14-49) are not modelled. They feed a text template that is not part of this model.
- Reading the annotation with `proto.GetExtension` (gin.go:104) is a foreign call. The annotation is an input field `http: Option<HttpRule>` of the method.
- `Strings` covers ASCII only. Go's Unicode case mapping and white-space set are not modelled, and neither is the `regexp` engine: the two patterns are written as explicit scans.
- Gin.GetGoPackageName: the registry is a sequence scanned in order, not Go's randomly ordered map.
  - Go can return any matching file.
  - `Routing.PackageOfConsistent` shows the choice is irrelevant when matching files agree on the package.
- Gin.Generator.GenMethod: after a failure, the contract says nothing about the counter. A failure is a panic that ends the run. The same holds for `GenAnnotated` and `GenService`. `BuildMethodDesc` does state its counter on failure.
- Gin.Generator.GenService: the contract states that the service record is fresh, but not that each method record is fresh or that the records are distinct objects.
- Gin.Generator.GenAnnotated: it loops over the alternates followed by the rule. The source has a loop over the alternates and then a separate call for the rule. The calls and their order are the same.
- `Summary`, `Description`, `Tags`, `Deprecated`, `RequireAuth` and `AuthSchemes` are never set by `gin.go`. They are plain fields the template helpers read.
- The semantics of `body` and `response_body` in `google.api.HttpRule`, and nested `{name=pattern/*}` path templates, are not interpreted, just as the code does not interpret them.
- Template.SecurityLinesShape: states the shape of each line and the count bound. It does not state the per-scheme correspondence of a concatenation of scheme lists. `SecurityLinesStep` gives that correspondence one scheme at a time.
- Path normalisation is modelled as the code behaves, not as an idempotent operation.
  - An already-colon segment loses its last character on every rewrite, and a lone ':' panics.
  - `PathParams.RewriteNotIdempotent` exhibits this.
