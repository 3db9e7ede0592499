/**
 * The already-parsed input the generator reads: Go identities of messages,
 * methods with their optional `google.api.http` annotation, files of the
 * plugin's registry and services.
 */
module Descriptors {
  import opened Wrappers

  /** A message's Go identity: its type name and the import path of its package. */
  datatype GoIdent = GoIdent(goName: string, goImportPath: string)

  /**
   * The `pattern` oneof of google.api.HttpRule (google/api/http.proto);
   * Unset stands for a rule whose oneof holds none of its cases.
   */
  datatype Pattern =
    | Get(path: string)
    | Put(path: string)
    | Post(path: string)
    | Delete(path: string)
    | Patch(path: string)
    | Custom(kind: string, path: string)
    | Unset

  /** google.api.HttpRule, without its `selector`. */
  datatype HttpRule = HttpRule(
    pattern: Pattern,
    body: string,
    responseBody: string,
    additionalBindings: seq<HttpRule>)

  /** An RPC method: Go name, request and response messages and its HTTP annotation, if any. */
  datatype RpcMethod = RpcMethod(goName: string, input: GoIdent, output: GoIdent, http: Option<HttpRule>)

  /** A .proto file known to the plugin. */
  datatype GoFile = GoFile(path: string, goImportPath: string, goPackageName: string)

  /** The plugin's registry of files, in some order. */
  datatype Plugin = Plugin(filesByPath: seq<GoFile>)

  datatype Service = Service(goName: string, fullName: string, methods: seq<RpcMethod>)

  /** The two conditions on which the generator panics. */
  datatype Fault =
    | NoSuchPackage(importPath: string)
    | SliceOutOfRange(path: string)
}
