/**
 * The configuration surface of the CBOR library that corim/cbor.go sets up: option
 * records, tag sets and the encode/decode modes built from them. The library's own
 * checks when it builds a mode are not part of this model; `Library` stands for them as
 * two total predicates saying which requested modes it accepts.
 */
module CborLib {
  import opened Wrappers
  import opened CborHead

  /** Identity of a Go type, as reflect.TypeOf reports it. */
  datatype TypeId = TypeId(name: string)

  datatype IndefLengthMode = IndefLengthAllowed | IndefLengthForbidden
  datatype EncTagMode = EncTagNone | EncTagRequired
  datatype DecTagMode = DecTagIgnored | DecTagOptional | DecTagRequired

  /** How strictly one registered tag is enforced on encode and on decode. */
  datatype TagOptions = TagOptions(encTag: EncTagMode, decTag: DecTagMode)

  /** One entry of a tag set: values of `contentType` travel under tag `num`. */
  datatype TagEntry = TagEntry(opts: TagOptions, contentType: TypeId, num: u64)

  datatype EncOptions = EncOptions(indefLength: IndefLengthMode, timeTag: EncTagMode)
  datatype DecOptions = DecOptions(indefLength: IndefLengthMode, timeTag: DecTagMode)

  /** A built mode is fully described by the options and the tag set it was built from. */
  datatype EncMode = EncMode(opts: EncOptions, tags: set<TagEntry>)
  datatype DecMode = DecMode(opts: DecOptions, tags: set<TagEntry>)

  /** Which requested modes the library agrees to build. */
  datatype Library = Library(encAccepts: EncMode -> bool, decAccepts: DecMode -> bool)

  /** Stand-in for the library's EncOptions.EncModeWithTags. */
  function EncModeWithTags(lib: Library, opts: EncOptions, tags: set<TagEntry>): Result<EncMode, string>
  {
    var requested := EncMode(opts, tags);
    if lib.encAccepts(requested) then Ok(requested) else Err("cbor: cannot build EncMode")
  }

  /** Stand-in for the library's DecOptions.DecModeWithTags. */
  function DecModeWithTags(lib: Library, opts: DecOptions, tags: set<TagEntry>): Result<DecMode, string>
  {
    var requested := DecMode(opts, tags);
    if lib.decAccepts(requested) then Ok(requested) else Err("cbor: cannot build DecMode")
  }
}
