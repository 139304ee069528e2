/**
 * Everything a pass learns from outside the two API servers: the kcp
 * command bridge (`kubectl kcp ...` shell-outs), kubeconfig loading and
 * discovery, the file system holding the install manifests, YAML decoding,
 * the unstructured-to-typed converter, the temporary credential file, and
 * the resources-package helpers whose code is not part of this model. Each
 * is an input of the pass; nothing is assumed about any of them.
 */
module Bridge {
  import opened Wrappers
  import opened Objects
  import opened Api
  import opened Store

  /** The outcome of reading the PolicyControl named by the request. */
  datatype PcLookup = Found(pc: PolicyControl) | NotFound | LookupFailed

  datatype Env = Env(
    pcLookup: PcLookup,
    tempCreated: bool,                        // os.CreateTemp succeeded
    tempWritten: bool,                        // file.Write succeeded
    syncOutput: Result<string, Error>,        // syncWorkspace: the `---`-separated syncer manifests
    localMapper: Mapper,                      // the local RESTMapper (discovery errors are ignored)
    edgeMapper: Result<Mapper, Error>,        // getWorkspaceConfigs, as called by the edge stage
    workspaceMapper: Result<Mapper, Error>,   // getWorkspaceConfigs, as called by the workspace stage
    kubeConfig: Result<string, Error>,        // getWorkspaceKubeConfig
    manifestFiles: seq<string>,               // filepath.Glob of the install manifests directory
    apiBindingsManifest: string,              // WORKSPACE_APIBINDINGS_MANIFEST
    files: map<string, string>,               // os.ReadFile: the readable files and their contents
    parse: string -> Option<Unstructured>,    // yaml.Unmarshal into an unstructured object
    converts: Unstructured -> bool,           // DefaultUnstructuredConverter.FromUnstructured succeeds
    builders: Builders)

  /**
   * The data a typed secret read finds in a stored object: a secret's own
   * data, or the data of a secret manifest written by the syncer. A key the
   * data lacks reads as "", like a Go map lookup.
   */
  function SecretValue(o: Obj, key: string): string {
    var data := if o.SecretObj? then o.data
                else if o.ManifestObj? && o.content.SecretContent? then o.content.data
                else map[];
    if key in data then data[key] else ""
  }
}
