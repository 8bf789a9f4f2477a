/**
 * corim/cbor.go: the registry of CBOR tags used by CoRIM documents, the encode and
 * decode modes derived from it, and the registration entry point that grows the
 * registry and rebuilds both modes.
 */
module Corim {
  import opened Wrappers
  import opened CborHead
  import opened CborLib

  // Tag numbers and their pre-encoded heads.

  const CoswidTag: seq<byte> := [0xD9, 0x01, 0xF9]
  const CoswidTagNumber: u64 := 505
  const ComidTag: seq<byte> := [0xD9, 0x01, 0xFA]
  const ComidTagNumber: u64 := 506
  const CobomTagNumber: u64 := 508

  /** The URI tag, bound at start-up for use inside nested structures. */
  const UriTagNumber: u64 := 32
  const TaggedUri: TypeId := TypeId("comid.TaggedURI")

  /** The registry as the package starts out. */
  const SeedTags: map<u64, TypeId> := map[UriTagNumber := TaggedUri]

  /** The byte constants are the major-type-6 heads of their tag numbers. */
  lemma TagBytesAreHeads()
    ensures CoswidTag == TagHead(CoswidTagNumber)
    ensures ComidTag == TagHead(ComidTagNumber)
    ensures DecodeHead(CoswidTag) == Some(HeadValue(MajorTypeTag, CoswidTagNumber, 3))
    ensures DecodeHead(ComidTag) == Some(HeadValue(MajorTypeTag, ComidTagNumber, 3))
  {
    Pow256Widths();
    assert ToBigEndian(1, 1) == [0x01];
    assert ToBigEndian(505, 2) == ToBigEndian(1, 1) + [0xF9];
    assert ToBigEndian(506, 2) == ToBigEndian(1, 1) + [0xFA];
    assert TagHead(CoswidTagNumber) == [0xD9] + ToBigEndian(505, 2);
    assert TagHead(ComidTagNumber) == [0xD9] + ToBigEndian(506, 2);
    DecodeHeadInvertsHead(MajorTypeTag, CoswidTagNumber, []);
    DecodeHeadInvertsHead(MajorTypeTag, ComidTagNumber, []);
    assert CoswidTag + [] == CoswidTag;
    assert ComidTag + [] == ComidTag;
  }

  // Deriving the modes from the registry.

  /** Every registered tag must be present on encode and must match on decode. */
  const RequiredTagOptions: TagOptions := TagOptions(EncTagRequired, DecTagRequired)

  /** Options that do not depend on the registry: no indefinite lengths, tagged times. */
  const CorimEncOptions: EncOptions := EncOptions(IndefLengthForbidden, EncTagRequired)
  const CorimDecOptions: DecOptions := DecOptions(IndefLengthForbidden, DecTagRequired)

  function RequiredEntry(num: u64, typ: TypeId): TagEntry
  {
    TagEntry(RequiredTagOptions, typ, num)
  }

  /** The tag set derived from a snapshot of the registry. */
  function TagEntries(m: map<u64, TypeId>): set<TagEntry>
  {
    set num | num in m :: RequiredEntry(num, m[num])
  }

  /** Adding a fresh binding to the registry adds its one entry to the tag set. */
  lemma TagEntriesInsert(m: map<u64, TypeId>, num: u64, t: TypeId)
    requires num !in m
    ensures TagEntries(m[num := t]) == TagEntries(m) + {RequiredEntry(num, t)}
  {
    forall e | e in TagEntries(m[num := t])
      ensures e in TagEntries(m) + {RequiredEntry(num, t)}
    {
      var k :| k in m[num := t] && e == RequiredEntry(k, m[num := t][k]);
      if k != num { assert e == RequiredEntry(k, m[k]); }
    }
    forall e | e in TagEntries(m) + {RequiredEntry(num, t)}
      ensures e in TagEntries(m[num := t])
    {
      if e == RequiredEntry(num, t) {
        assert num in m[num := t] && m[num := t][num] == t;
      } else {
        var k :| k in m && e == RequiredEntry(k, m[k]);
        assert k in m[num := t] && m[num := t][k] == m[k];
      }
    }
  }

  /** Each registered number has one entry in the tag set, with that number's type. */
  lemma TagEntriesOnePerKey(m: map<u64, TypeId>)
    ensures forall num :: num in m ==> RequiredEntry(num, m[num]) in TagEntries(m)
    ensures forall e :: e in TagEntries(m) ==> e.num in m && e == RequiredEntry(e.num, m[e.num])
  {
  }

  /** The tag set has as many entries as the registry has numbers. */
  lemma {:induction false} TagEntriesCount(m: map<u64, TypeId>)
    ensures |TagEntries(m)| == |m|
  {
    if m != map[] {
      var num :| num in m;
      var rest := m - {num};
      TagEntriesCount(rest);
      assert m == rest[num := m[num]];
      TagEntriesInsert(rest, num, m[num]);
      assert RequiredEntry(num, m[num]) !in TagEntries(rest);
      assert m.Keys == rest.Keys + {num};
    }
  }

  /** corimTags: walks the registry and adds each binding to a fresh tag set. */
  method CorimTags(m: map<u64, TypeId>) returns (tags: set<TagEntry>)
    ensures tags == TagEntries(m)
  {
    tags := {};
    var pending := m.Keys;
    while pending != {}
      invariant pending <= m.Keys
      invariant tags == TagEntries(m - pending)
      decreases |pending|
    {
      var num :| num in pending;
      assert m - (pending - {num}) == (m - pending)[num := m[num]];
      TagEntriesInsert(m - pending, num, m[num]);
      tags := tags + {RequiredEntry(num, m[num])};
      pending := pending - {num};
    }
    assert m - pending == m;
  }

  /** The encode mode requested for a registry snapshot. */
  function EncConfig(m: map<u64, TypeId>): EncMode
  {
    EncMode(CorimEncOptions, TagEntries(m))
  }

  /** The decode mode requested for a registry snapshot. */
  function DecConfig(m: map<u64, TypeId>): DecMode
  {
    DecMode(CorimDecOptions, TagEntries(m))
  }

  /**
   * The two modes built from one snapshot agree on the tags, each with its registered
   * type and required both ways, and their fixed options do not depend on the snapshot.
   */
  lemma ConfigsAgree(m: map<u64, TypeId>, m': map<u64, TypeId>)
    ensures EncConfig(m).tags == DecConfig(m).tags
    ensures EncConfig(m).opts == EncConfig(m').opts && DecConfig(m).opts == DecConfig(m').opts
    ensures EncConfig(m).opts.indefLength == IndefLengthForbidden && EncConfig(m).opts.timeTag == EncTagRequired
    ensures DecConfig(m).opts.indefLength == IndefLengthForbidden && DecConfig(m).opts.timeTag == DecTagRequired
    ensures forall e :: e in EncConfig(m).tags ==>
      e.num in m && e.contentType == m[e.num] && e.opts.encTag == EncTagRequired && e.opts.decTag == DecTagRequired
  {
    TagEntriesOnePerKey(m);
  }

  /** initCBOREncMode: the fixed encode options plus the registry's tag set. */
  method InitCborEncMode(lib: Library, m: map<u64, TypeId>) returns (r: Result<EncMode, string>)
    ensures r.Ok? <==> lib.encAccepts(EncConfig(m))
    ensures r.Ok? ==> r.value == EncConfig(m)
    ensures r == EncModeWithTags(lib, CorimEncOptions, TagEntries(m))
  {
    var tags := CorimTags(m);
    r := EncModeWithTags(lib, CorimEncOptions, tags);
  }

  /** initCBORDecMode: the fixed decode options plus the registry's tag set. */
  method InitCborDecMode(lib: Library, m: map<u64, TypeId>) returns (r: Result<DecMode, string>)
    ensures r.Ok? <==> lib.decAccepts(DecConfig(m))
    ensures r.Ok? ==> r.value == DecConfig(m)
    ensures r == DecModeWithTags(lib, CorimDecOptions, TagEntries(m))
  {
    var tags := CorimTags(m);
    r := DecModeWithTags(lib, CorimDecOptions, tags);
  }

  // The registration protocol.

  /** The package-level state: corimTagsMap and the em and dm globals (None is nil). */
  datatype PackageState = PackageState(tagsMap: map<u64, TypeId>, em: Option<EncMode>, dm: Option<DecMode>)

  datatype RegisterError =
    | AlreadyRegistered(tag: u64)
    | EncModeError(cause: string)
    | DecModeError(cause: string)

  datatype Outcome = Outcome(state: PackageState, err: Option<RegisterError>)

  /** Both modes are the ones built from the current registry. */
  predicate ModesMatchRegistry(s: PackageState)
  {
    s.em == Some(EncConfig(s.tagsMap)) && s.dm == Some(DecConfig(s.tagsMap))
  }

  /** The state after package initialisation, when both start-up builds succeed. */
  function InitialState(): (s: PackageState)
    ensures s.tagsMap.Keys == {UriTagNumber} && s.tagsMap[UriTagNumber] == TaggedUri
    ensures ModesMatchRegistry(s)
  {
    PackageState(SeedTags, Some(EncConfig(SeedTags)), Some(DecConfig(SeedTags)))
  }

  /** One call of registerCORIMTag, as a transition of the package state. */
  function RegisterStep(lib: Library, s: PackageState, tag: u64, t: TypeId): (o: Outcome)
    // A bound number is refused and nothing changes, the modes included; no other
    // error names a number.
    ensures o.err.Some? && o.err.value.AlreadyRegistered? <==> tag in s.tagsMap
    ensures tag in s.tagsMap ==> o == Outcome(s, Some(AlreadyRegistered(tag)))
    // Otherwise the registry gains exactly this one binding, whatever the builds do.
    ensures tag !in s.tagsMap ==> o.state.tagsMap == s.tagsMap[tag := t]
    // Nothing bound before is removed or rebound.
    ensures forall k :: k in s.tagsMap ==> k in o.state.tagsMap && o.state.tagsMap[k] == s.tagsMap[k]
    // Both builds from the new registry succeed: no error, and both modes match it.
    ensures (tag !in s.tagsMap && lib.encAccepts(EncConfig(s.tagsMap[tag := t])) &&
             lib.decAccepts(DecConfig(s.tagsMap[tag := t]))) ==>
      o.err == None && ModesMatchRegistry(o.state)
    // The encode build fails: em is cleared and dm is not rebuilt.
    ensures (tag !in s.tagsMap && !lib.encAccepts(EncConfig(s.tagsMap[tag := t]))) ==>
      o.err.Some? && o.err.value.EncModeError? && o.state.em == None && o.state.dm == s.dm
    // The decode build fails after the encode build: the new em sits beside a cleared dm.
    ensures (tag !in s.tagsMap && lib.encAccepts(EncConfig(s.tagsMap[tag := t])) &&
             !lib.decAccepts(DecConfig(s.tagsMap[tag := t]))) ==>
      o.err.Some? && o.err.value.DecModeError? &&
      o.state.em == Some(EncConfig(s.tagsMap[tag := t])) && o.state.dm == None
    // Each error kind arises only from its own cause.
    ensures o.err == None ==>
      tag !in s.tagsMap && lib.encAccepts(EncConfig(s.tagsMap[tag := t])) &&
      lib.decAccepts(DecConfig(s.tagsMap[tag := t]))
    ensures o.err.Some? && o.err.value.EncModeError? ==>
      tag !in s.tagsMap && !lib.encAccepts(EncConfig(s.tagsMap[tag := t]))
    ensures o.err.Some? && o.err.value.DecModeError? ==>
      tag !in s.tagsMap && lib.encAccepts(EncConfig(s.tagsMap[tag := t])) &&
      !lib.decAccepts(DecConfig(s.tagsMap[tag := t]))
  {
    if tag in s.tagsMap then Outcome(s, Some(AlreadyRegistered(tag)))
    else
      var m := s.tagsMap[tag := t];
      match EncModeWithTags(lib, CorimEncOptions, TagEntries(m))
      case Err(cause) => Outcome(PackageState(m, None, s.dm), Some(EncModeError(cause)))
      case Ok(em) =>
        match DecModeWithTags(lib, CorimDecOptions, TagEntries(m))
        case Err(cause) => Outcome(PackageState(m, Some(em), None), Some(DecModeError(cause)))
        case Ok(dm) => Outcome(PackageState(m, Some(em), Some(dm)), None)
  }

  /** A number, once offered, is refused from then on, whether its first build failed or not. */
  lemma RegisterTwiceRefused(lib: Library, s: PackageState, tag: u64, t: TypeId, u: TypeId)
    ensures var first := RegisterStep(lib, s, tag, t).state;
      RegisterStep(lib, first, tag, u) == Outcome(first, Some(AlreadyRegistered(tag)))
      && first.tagsMap[tag] == (if tag in s.tagsMap then s.tagsMap[tag] else t)
  {
  }

  /** The state after a series of registrations, each on the state the previous one left. */
  function RegisterAll(lib: Library, s: PackageState, regs: seq<(u64, TypeId)>): PackageState
    decreases |regs|
  {
    if regs == [] then s
    else RegisterAll(lib, RegisterStep(lib, s, regs[0].0, regs[0].1).state, regs[1..])
  }

  /** The tag numbers named in a series of registrations. */
  function RequestedTags(regs: seq<(u64, TypeId)>): set<u64>
  {
    set i | 0 <= i < |regs| :: regs[i].0
  }

  /**
   * The registry only grows: after any series of registrations, successful or not, every
   * earlier binding is still there unchanged, and the numbers bound are exactly the
   * earlier ones plus those requested.
   */
  lemma {:induction false} RegistryGrowsMonotonically(lib: Library, s: PackageState, regs: seq<(u64, TypeId)>)
    decreases |regs|
    ensures var s' := RegisterAll(lib, s, regs);
      (forall k :: k in s.tagsMap ==> k in s'.tagsMap && s'.tagsMap[k] == s.tagsMap[k])
      && s'.tagsMap.Keys == s.tagsMap.Keys + RequestedTags(regs)
  {
    if regs != [] {
      var next := RegisterStep(lib, s, regs[0].0, regs[0].1).state;
      RegistryGrowsMonotonically(lib, next, regs[1..]);
      assert next.tagsMap.Keys == s.tagsMap.Keys + {regs[0].0};
      assert RequestedTags(regs) == {regs[0].0} + RequestedTags(regs[1..]) by {
        forall k | k in RequestedTags(regs) ensures k in {regs[0].0} + RequestedTags(regs[1..]) {
          var i :| 0 <= i < |regs| && regs[i].0 == k;
          if i > 0 { assert regs[1..][i - 1].0 == k; }
        }
        forall k | k in RequestedTags(regs[1..]) ensures k in RequestedTags(regs) {
          var i :| 0 <= i < |regs[1..]| && regs[1..][i].0 == k;
          assert regs[i + 1].0 == k;
        }
      }
    } else {
      assert RequestedTags(regs) == {};
    }
  }

  /** The package's globals, updated in place by registration. */
  class Package {
    const lib: Library
    var corimTagsMap: map<u64, TypeId>
    var em: Option<EncMode>
    var dm: Option<DecMode>

    function State(): PackageState
      reads this
    {
      PackageState(corimTagsMap, em, dm)
    }

    /** Package initialisation; a failed start-up build would panic, so both must succeed. */
    constructor (lib: Library)
      requires lib.encAccepts(EncConfig(SeedTags)) && lib.decAccepts(DecConfig(SeedTags))
      ensures this.lib == lib
      ensures State() == InitialState()
    {
      this.lib := lib;
      corimTagsMap := SeedTags;
      var encResult := InitCborEncMode(lib, SeedTags);
      var decResult := InitCborDecMode(lib, SeedTags);
      em := encResult.ValueOrNil();
      dm := decResult.ValueOrNil();
    }

    /** registerCORIMTag: bind `tag` to `t` if it is free, then rebuild em and then dm. */
    method RegisterCorimTag(tag: u64, t: TypeId) returns (err: Option<RegisterError>)
      modifies this
      ensures Outcome(State(), err) == RegisterStep(lib, old(State()), tag, t)
    {
      if tag in corimTagsMap {
        return Some(AlreadyRegistered(tag));
      }

      corimTagsMap := corimTagsMap[tag := t];

      var encResult := InitCborEncMode(lib, corimTagsMap);
      em := encResult.ValueOrNil();
      if encResult.Err? {
        return Some(EncModeError(encResult.error));
      }

      var decResult := InitCborDecMode(lib, corimTagsMap);
      dm := decResult.ValueOrNil();
      if decResult.Err? {
        return Some(DecModeError(decResult.error));
      }

      return None;
    }
  }
}
