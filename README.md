# CoRIM CBOR tag registry

A Dafny model of `corim/cbor.go` from the Veraison CoRIM library: the registry that maps
CBOR tag numbers to the Go types carried under them (`corimTagsMap`), the encode and
decode modes (`em`, `dm`) the package derives from that registry, and `registerCORIMTag`,
the one way to add a binding, which rebuilds both modes afterwards. The pre-encoded tag
heads `CoswidTag` and `ComidTag` are checked against a small encoder and decoder of CBOR
data-item heads (section 3 of RFC 8949; tags are major type 6, section 3.4).

Files:

- `wrappers.dfy` — `Option` (None plays Go's nil) and `Result` (a Go `(T, error)` pair).
- `cbor_head.dfy` — module `CborHead`: big-endian arguments, `Head`, `TagHead`, `DecodeHead`.
- `cbor_lib.dfy` — module `CborLib`: the option records, tag sets and modes of the CBOR
  library the package configures. Whether the library agrees to build a mode is a
  parameter, `Library`, a pair of total predicates over the requested modes.
  `EncModeWithTags` and `DecModeWithTags` return the requested mode when the predicate
  accepts it and an error otherwise.
- `corim_cbor.dfy` — module `Corim`: the constants, the derived tag set (`TagEntries`, the
  loop `CorimTags`), the mode builders, a pure transition `RegisterStep` on the package
  state, and the class `Package`. Its fields are the package globals. Its method
  `RegisterCorimTag` updates them step by step and is proved to end in the state
  `RegisterStep` describes.

One might expect a failed rebuild to leave the active modes in place. The code does not.
`em, err = initCBOREncMode()` assigns whatever the library hands back, and the library
returns a nil mode with its error. So a failed encode build clears `em` and leaves `dm` at
its old value. A failed decode build leaves the new `em` beside a cleared `dm`. In both
cases the new binding stays in the map. `RegisterStep` states each of these cases from its
inputs: which builds the library accepts decides which error is returned and what `em`
and `dm` become.

## Model

| member | source | states |
|---|---|---|
| CborHead.Head | corim/cbor.go:20-23 | a tag head starts with major type 6; it is one byte only for arguments below 24 and three bytes exactly for arguments 256..65535; the bytes after the initial byte read back as the argument |
| CborHead.ToBigEndian | corim/cbor.go:20-23 | the argument bytes of a head have the requested width and read back as the number they encode |
| CborHead.DecodeHeadInvertsHead | corim/cbor.go:20-23 | decoding any head, whatever follows it, gives back its major type, its argument and its length |
| Corim.TagBytesAreHeads | corim/cbor.go:20-23 | `CoswidTag` and `ComidTag` are the major-type-6 heads of `CoswidTagNumber` (505) and `ComidTagNumber` (506), and decode back to those numbers in three bytes |
| Corim.InitialState | corim/cbor.go:26-29 | the registry starts with tag 32 bound to the URI type and nothing else, and both modes are built from it |
| Corim.TagEntriesOnePerKey | corim/cbor.go:32-46 | every registered number has an entry in the derived tag set, and every entry belongs to a registered number, carries that number's type and is marked required on encode and decode |
| Corim.TagEntriesCount | corim/cbor.go:32-46 | the derived tag set has exactly as many entries as the registry has numbers, so no two entries share a number |
| Corim.TagEntriesInsert | corim/cbor.go:40-44 | adding a fresh binding adds exactly its one required entry to the tag set |
| Corim.CorimTags | corim/cbor.go:32-47 | the loop over the registry produces exactly the derived tag set of the registry |
| Corim.ConfigsAgree | corim/cbor.go:49-70 | encode and decode modes from one snapshot carry the same tag set; both forbid indefinite lengths and require time tags; these options are the same for every registry |
| Corim.InitCborEncMode | corim/cbor.go:49-61 | the encode build succeeds exactly when the library accepts the fixed options plus the registry's tag set, and then yields that mode |
| Corim.InitCborDecMode | corim/cbor.go:63-70 | the decode build succeeds exactly when the library accepts the fixed options plus the registry's tag set, and then yields that mode |
| Corim.RegisterStep | corim/cbor.go:72-92 | a bound number, and only a bound number, is refused, naming that number, with nothing changed; otherwise the map gains exactly that binding; no earlier binding is removed or rebound; when the library accepts both modes for the new map there is no error and both modes match that map; when it refuses the encode mode the error is an encode error, `em` is cleared and `dm` keeps its old value; when it accepts the encode mode but refuses the decode mode the error is a decode error, `em` is the new mode and `dm` is cleared; each error kind arises only from its own cause |
| Corim.RegisterTwiceRefused | corim/cbor.go:72-77 | once a number has been offered, a second registration of it is refused and changes nothing, even if the first one's rebuild failed |
| Corim.RegistryGrowsMonotonically | corim/cbor.go:72-92 | after any series of registrations, successful or not, every earlier binding is unchanged, and the bound numbers are exactly the earlier ones plus the requested ones |
| Corim.Package.constructor | corim/cbor.go:14-29 | package start-up: the seeded registry with both modes built from it, given that both start-up builds succeed |
| Corim.Package.RegisterCorimTag | corim/cbor.go:72-92 | the in-place update of the map, `em` and `dm` ends in the state and error that `RegisterStep` gives for the old state |

## Left out

- The CBOR library's own behaviour (`TagSet.Add`, `EncModeWithTags`, `DecModeWithTags`, the wire encoding and decoding). The model only configures it. Whether a build succeeds is the `Library` parameter. A built mode is identified with the options and tag set it was built from.
- `reflect.TypeOf` and `comid.TaggedURI` are replaced by a `TypeId` value. The registry stores that identifier, not a representative value.
- The panic in `corimTags` when `TagSet.Add` fails (corim/cbor.go:41-43) is not modelled; the tag set is assumed to accept every binding. `TagSet.Add` fails, for example, when the Go type is already bound under another number, or for a reserved tag number such as 0 to 3. In the source, registering a fresh number for a type already bound under another number therefore crashes the process during the rebuild, after the map has been changed. The model reports success, or a build error, for the same call.
- The panics in `init` (corim/cbor.go:94-101) and the `emError`/`dmError` globals are not modelled as behaviour. They become the constructor's precondition that both start-up builds succeed.
- The error texts are not modelled. `AlreadyRegistered(tag)` stands for "tag %d is already registered". A build error carries the library's message as a string.
- Concurrency: the code takes no lock, and the model is sequential.
- Round trips of whole documents and rejection of indefinite-length or mis-tagged input happen inside the library and are not modelled.
- Registrations made by other files of the package (the nil-value tag added in entity.go, the CoMID and CoSWID types) are not part of this model. `CobomTagNumber` is declared but has no byte constant in the source, and no property is stated about it.
