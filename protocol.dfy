/**
 * The values a ManageSieve client exchanges with its server: reply tags,
 * response codes and their extension data, the information part of a reply,
 * the capabilities a server announces, and the errors every operation shares.
 */
module Protocol {
  import opened Wrappers
  import opened Text

  /** The three reply tags of RFC 5804. */
  datatype Tag = OK | NO | BYE

  /** `QuotaVariant`: which limit a QUOTA response code names. */
  datatype Quota = Unspecified | MaxScripts | MaxSize

  /** Extension data of a response code this client does not know. */
  datatype ExtensionItem =
    | String(s: string)
    | Number(n: u64)
    | ExtensionData(items: seq<ExtensionItem>)

  /** Response codes (section 1.3 of RFC 5804). */
  datatype ResponseCode =
    | AuthTooWeak
    | EncryptNeeded
    | Quota(quota: Quota)
    | Referral(url: string)
    | Sasl(sasl: string)
    | TransitionNeeded
    | TryLater
    | Active
    | Nonexistent
    | AlreadyExists
    | Warnings
    | Tag(tag: string)
    | Extension(name: string, data: Option<seq<ExtensionItem>>)

  /** The optional response code and human-readable text after a reply tag. */
  datatype ResponseInfo = ResponseInfo(code: Option<ResponseCode>, human: Option<string>)

  /** A complete OK, NO or BYE line. */
  datatype Response = Response(tag: Tag, info: ResponseInfo)

  /** `Either` from the replies that may carry a string before their final line. */
  datatype Either<+L, +R> = Left(left: L) | Right(right: R)

  /** The `VERSION` capability: `major.minor`. */
  datatype Version = Version(major: u64, minor: u64)

  /** One capability line (section 1.7 of RFC 5804). */
  datatype Capability =
    | Implementation(implementation: string)
    | Sasl(mechanisms: seq<string>)
    | Sieve(extensions: seq<string>)
    | StartTls
    | MaxRedirects(maxRedirects: u64)
    | Notify(methods: seq<string>)
    | Language(language: string)
    | Owner(owner: string)
    | Version(version: Version)
    | Unknown(name: string, value: Option<string>)

  /** The verified capability snapshot a connection carries. */
  datatype Capabilities = Capabilities(
    implementation: string,
    sasl: seq<string>,
    sieve: seq<string>,
    startTls: bool,
    maxRedirects: Option<u64>,
    notify: Option<seq<string>>,
    language: Option<string>,
    owner: Option<string>,
    version: Version,
    others: map<string, Option<string>>)

  datatype CapabilitiesError =
    | MissingImplementation
    | MissingSieve
    | MissingVersion
    | DuplicateCapability(capability: string)

  /** The `io::ErrorKind`s the client produces or passes on. */
  datatype IoError = UnexpectedEof | InvalidData | Failed(code: nat)

  /** `SieveError`: what any operation can fail with. */
  datatype SieveError =
    | Io(io: IoError)
    | Syntax
    | CapabilitiesError(error: CapabilitiesError)
    | Bye(info: ResponseInfo)
    | UnexpectedNo(info: ResponseInfo)
}
