/** Shared value types of the patcher: the update manifest a vulnerability
    report is turned into, the error values the core produces, and the
    Option/Result wrappers used for Go's (value, error) returns. */
module Types {

  datatype Option<+T> = None | Some(value: T)

  datatype Result<+T, +E> = Ok(value: T) | Err(error: E)

  /** The errors the modelled code creates. `Multi` is a multierror: its
      causes are kept in insertion order. `Wrapped` is errors.Wrap: a
      context message in front of a cause. A collaborator the model does
      not look inside may return any of these values. */
  datatype Error =
    | ErrExist                                   // an error with fs.ErrExist's text
    | ErrPermission                              // an error with fs.ErrPermission's text
    | MkdirFailed                                // os.MkdirAll refused by the operating system
    | ReadDirFailed                              // os.ReadDir failed on the staging directory
    | UnsupportedOSType                          // "unsupported OS type"
    | InvalidVersion(version: string, pkg: string)
    | VersionTooLow(pkg: string, version: string, required: string)
    | InvalidTaggedName                          // "invalid tagged name"
    | Multi(causes: seq<Error>)
    | Wrapped(context: string, cause: Error)

  /** One requested package update. */
  datatype UpdatePackage = UpdatePackage(name: string, installedVersion: string, fixedVersion: string)

  datatype OSInfo = OSInfo(osType: string, version: string)

  datatype ImageConfig = ImageConfig(arch: string)

  datatype Metadata = Metadata(os: OSInfo, config: ImageConfig)

  /** What the report collaborator produces: the base image's OS family and
      architecture, and the packages to update. */
  datatype UpdateManifest = UpdateManifest(metadata: Metadata, updates: seq<UpdatePackage>)

  const EmptyManifest := UpdateManifest(Metadata(OSInfo("", ""), ImageConfig("")), [])
}
