/** The JSON form of KubeletConfiguration: typed fields, and an overflow for all other fields. */
module Kubelet {
  import opened Wrappers
  import opened Listings

  /** JSON values; `Fraction` is a number that is not written as an integer. */
  datatype Json =
    | Null
    | Bool(b: bool)
    | Int(i: int)
    | Fraction(text: string)
    | Str(s: string)
    | Arr(items: seq<Json>)
    | Obj(members: map<string, Json>)

  /** The JSON names of the struct fields, which the code collects by reflection, told apart from all other names. */
  datatype TypedField =
    | MaxPods | PodsPerCore
    | SystemReserved | KubeReserved | EvictionHard | EvictionSoft | EvictionSoftGracePeriod
    | EvictionMaxPodGracePeriod | ImageGCHighThresholdPercent | ImageGCLowThresholdPercent | CPUCFSQuota
  datatype Name = Known(field: TypedField) | Other(name: string)

  type Doc = map<Name, Json>

  /** The text given to or produced by the JSON methods. */
  datatype Text = NoBytes | Garbage | NullText | OtherValue | Object(doc: Doc)

  newtype int32 = x: int | -0x8000_0000 <= x < 0x8000_0000

  type StringMap = map<string, string>

  /** The explicitly typed fields; None is a nil map or pointer. */
  datatype Typed = Typed(
    maxPods: int32, podsPerCore: int32,
    systemReserved: Option<StringMap>, kubeReserved: Option<StringMap>,
    evictionHard: Option<StringMap>, evictionSoft: Option<StringMap>, evictionSoftGracePeriod: Option<StringMap>,
    evictionMaxPodGracePeriod: Option<int32>, imageGCHighThresholdPercent: Option<int32>,
    imageGCLowThresholdPercent: Option<int32>, cpuCFSQuota: Option<bool>)

  const ZERO := Typed(0, 0, None, None, None, None, None, None, None, None, None)

  datatype Config = Config(typed: Typed, overflow: Text)

  const ZERO_CONFIG := Config(ZERO, NoBytes)

  /******* Decoding one field: the value stored, and whether it had the right type *******/

  datatype Decoded<+T> = Decoded(value: T, ok: bool)

  function Field(doc: Doc, f: TypedField): Json {
    if Known(f) in doc then doc[Known(f)] else Null
  }

  /** Null and type errors leave the zero value that was there. */
  function DecodeInt(j: Json): Decoded<int32> {
    match j
    case Null => Decoded(0, true)
    case Int(i) => if -0x8000_0000 <= i < 0x8000_0000 then Decoded(i as int32, true) else Decoded(0, false)
    case _ => Decoded(0, false)
  }

  function DecodeIntPtr(j: Json): Decoded<Option<int32>> {
    if j == Null then Decoded(None, true) else Decoded(Some(DecodeInt(j).value), DecodeInt(j).ok)
  }

  function DecodeBoolPtr(j: Json): Decoded<Option<bool>> {
    match j
    case Null => Decoded(None, true)
    case Bool(b) => Decoded(Some(b), true)
    case _ => Decoded(Some(false), false)
  }

  /** An element that is null or no string becomes the empty string. */
  function DecodeMap(j: Json): Decoded<Option<StringMap>> {
    match j
    case Null => Decoded(None, true)
    case Obj(members) =>
      Decoded(Some(map k | k in members :: if members[k].Str? then members[k].s else ""),
              forall k :: k in members ==> members[k].Str? || members[k].Null?)
    case _ => Decoded(None, false)
  }

  function DecodeTyped(doc: Doc): Typed {
    Typed(
      DecodeInt(Field(doc, MaxPods)).value, DecodeInt(Field(doc, PodsPerCore)).value,
      DecodeMap(Field(doc, SystemReserved)).value, DecodeMap(Field(doc, KubeReserved)).value,
      DecodeMap(Field(doc, EvictionHard)).value, DecodeMap(Field(doc, EvictionSoft)).value,
      DecodeMap(Field(doc, EvictionSoftGracePeriod)).value,
      DecodeIntPtr(Field(doc, EvictionMaxPodGracePeriod)).value,
      DecodeIntPtr(Field(doc, ImageGCHighThresholdPercent)).value,
      DecodeIntPtr(Field(doc, ImageGCLowThresholdPercent)).value,
      DecodeBoolPtr(Field(doc, CPUCFSQuota)).value)
  }

  predicate FieldOk(doc: Doc, f: TypedField) {
    match f
    case MaxPods => DecodeInt(Field(doc, f)).ok
    case PodsPerCore => DecodeInt(Field(doc, f)).ok
    case EvictionMaxPodGracePeriod => DecodeIntPtr(Field(doc, f)).ok
    case ImageGCHighThresholdPercent => DecodeIntPtr(Field(doc, f)).ok
    case ImageGCLowThresholdPercent => DecodeIntPtr(Field(doc, f)).ok
    case CPUCFSQuota => DecodeBoolPtr(Field(doc, f)).ok
    case _ => DecodeMap(Field(doc, f)).ok
  }

  predicate WellTyped(doc: Doc) {
    forall f: TypedField :: FieldOk(doc, f)
  }

  function Unknown(doc: Doc): Doc {
    map n | n in doc && n.Other? :: doc[n]
  }

  function OverflowOf(unknown: Doc): Text {
    if unknown == map[] then NoBytes else Object(unknown)
  }

  /** What UnmarshalJSON leaves in the receiver, and whether it succeeds. */
  function Decode(data: Text): Decoded<Config> {
    match data
    case NullText => Decoded(ZERO_CONFIG, true)
    case Object(doc) =>
      if WellTyped(doc) then Decoded(Config(DecodeTyped(doc), OverflowOf(Unknown(doc))), true)
      else Decoded(Config(DecodeTyped(doc), NoBytes), false)
    case _ => Decoded(ZERO_CONFIG, false)
  }

  /******* Encoding *******/

  function EncodeInt(i: int32): Option<Json> {
    if i == 0 then None else Some(Int(i as int))
  }

  function EncodeIntPtr(p: Option<int32>): Option<Json> {
    if p.None? then None else Some(Int(p.value as int))
  }

  /** `omitempty` drops an empty map just like a nil one. */
  function EncodeMap(m: Option<StringMap>): Option<Json> {
    if m.None? || m.value == map[] then None else Some(Obj(map k | k in m.value :: Str(m.value[k])))
  }

  function EncodeField(t: Typed, f: TypedField): Option<Json> {
    match f
    case MaxPods => EncodeInt(t.maxPods)
    case PodsPerCore => EncodeInt(t.podsPerCore)
    case SystemReserved => EncodeMap(t.systemReserved)
    case KubeReserved => EncodeMap(t.kubeReserved)
    case EvictionHard => EncodeMap(t.evictionHard)
    case EvictionSoft => EncodeMap(t.evictionSoft)
    case EvictionSoftGracePeriod => EncodeMap(t.evictionSoftGracePeriod)
    case EvictionMaxPodGracePeriod => EncodeIntPtr(t.evictionMaxPodGracePeriod)
    case ImageGCHighThresholdPercent => EncodeIntPtr(t.imageGCHighThresholdPercent)
    case ImageGCLowThresholdPercent => EncodeIntPtr(t.imageGCLowThresholdPercent)
    case CPUCFSQuota => if t.cpuCFSQuota.None? then None else Some(Bool(t.cpuCFSQuota.value))
  }

  function EncodeTyped(t: Typed): Doc {
    map f: TypedField | EncodeField(t, f).Some? :: Known(f) := EncodeField(t, f).value
  }

  datatype Encoded = Bytes(text: Text) | Error | Panic

  /**
   Structured fields win over overflow fields of the same name. A null overflow becomes a nil map: a write to it
   panics, and without a write it is encoded as null.
   */
  function Encode(c: Config): Encoded {
    var structured := EncodeTyped(c.typed);
    match c.overflow
    case NoBytes => Bytes(Object(structured))
    case Object(overflow) => Bytes(Object(overflow + structured))
    case NullText => if structured == map[] then Bytes(NullText) else Panic
    case _ => Error
  }

  predicate HasTypedFields(t: Typed) {
    || t.maxPods != 0 || t.podsPerCore != 0
    || t.systemReserved.Some? || t.kubeReserved.Some? || t.evictionHard.Some? || t.evictionSoft.Some?
    || t.evictionSoftGracePeriod.Some? || t.evictionMaxPodGracePeriod.Some?
    || t.imageGCHighThresholdPercent.Some? || t.imageGCLowThresholdPercent.Some? || t.cpuCFSQuota.Some?
  }

  predicate IsZero(c: Config) {
    !HasTypedFields(c.typed) && c.overflow == NoBytes
  }

  /******* Properties *******/

  /** The overflow never holds a known name, whatever is decoded. */
  lemma OverflowIsUnknown(data: Text)
    ensures var overflow := Decode(data).value.overflow;
      overflow == NoBytes || (overflow.Object? && overflow.doc != map[] && forall n :: n in overflow.doc ==> n.Other?)
  {
  }

  predicate NoEmptyMap(m: Option<StringMap>) {
    m.Some? ==> m.value != map[]
  }

  predicate NoEmptyMaps(t: Typed) {
    && NoEmptyMap(t.systemReserved) && NoEmptyMap(t.kubeReserved) && NoEmptyMap(t.evictionHard)
    && NoEmptyMap(t.evictionSoft) && NoEmptyMap(t.evictionSoftGracePeriod)
  }

  function DropEmpty(m: Option<StringMap>): Option<StringMap> {
    if m == Some(map[]) then None else m
  }

  /** The typed fields as they come back: an empty map is nil. */
  function Normal(t: Typed): Typed {
    t.(systemReserved := DropEmpty(t.systemReserved), kubeReserved := DropEmpty(t.kubeReserved),
       evictionHard := DropEmpty(t.evictionHard), evictionSoft := DropEmpty(t.evictionSoft),
       evictionSoftGracePeriod := DropEmpty(t.evictionSoftGracePeriod))
  }

  lemma MapRoundTrip(m: Option<StringMap>, j: Json)
    requires j == if EncodeMap(m).Some? then EncodeMap(m).value else Null
    ensures DecodeMap(j) == Decoded(DropEmpty(m), true)
  {
    if EncodeMap(m).Some? { assert DecodeMap(j).value.value == m.value; }
  }

  function EncodedOrNull(t: Typed, f: TypedField): Json {
    if EncodeField(t, f).Some? then EncodeField(t, f).value else Null
  }

  /** The document has, under its known names, what `t` is encoded to. */
  ghost predicate Holds(doc: Doc, t: Typed) {
    forall f: TypedField :: Field(doc, f) == EncodedOrNull(t, f)
  }

  lemma IntFieldsRoundTrip(t: Typed, doc: Doc)
    requires Field(doc, MaxPods) == EncodedOrNull(t, MaxPods)
    requires Field(doc, PodsPerCore) == EncodedOrNull(t, PodsPerCore)
    ensures FieldOk(doc, MaxPods) && FieldOk(doc, PodsPerCore)
    ensures DecodeTyped(doc).maxPods == t.maxPods && DecodeTyped(doc).podsPerCore == t.podsPerCore
  {
  }

  lemma IntPtrRoundTrip(p: Option<int32>, j: Json)
    requires j == if EncodeIntPtr(p).Some? then EncodeIntPtr(p).value else Null
    ensures DecodeIntPtr(j) == Decoded(p, true)
  {
  }

  lemma PointerFieldsRoundTrip(t: Typed, doc: Doc)
    requires Holds(doc, t)
    ensures FieldOk(doc, EvictionMaxPodGracePeriod) && FieldOk(doc, ImageGCHighThresholdPercent)
    ensures FieldOk(doc, ImageGCLowThresholdPercent) && FieldOk(doc, CPUCFSQuota)
    ensures var d := DecodeTyped(doc);
      && d.evictionMaxPodGracePeriod == t.evictionMaxPodGracePeriod
      && d.imageGCHighThresholdPercent == t.imageGCHighThresholdPercent
      && d.imageGCLowThresholdPercent == t.imageGCLowThresholdPercent && d.cpuCFSQuota == t.cpuCFSQuota
  {
    IntPtrRoundTrip(t.evictionMaxPodGracePeriod, Field(doc, EvictionMaxPodGracePeriod));
    IntPtrRoundTrip(t.imageGCHighThresholdPercent, Field(doc, ImageGCHighThresholdPercent));
    IntPtrRoundTrip(t.imageGCLowThresholdPercent, Field(doc, ImageGCLowThresholdPercent));
  }

  lemma ReservedFieldsRoundTrip(t: Typed, doc: Doc)
    requires Holds(doc, t)
    ensures FieldOk(doc, SystemReserved) && DecodeTyped(doc).systemReserved == DropEmpty(t.systemReserved)
    ensures FieldOk(doc, KubeReserved) && DecodeTyped(doc).kubeReserved == DropEmpty(t.kubeReserved)
  {
    MapRoundTrip(t.systemReserved, Field(doc, SystemReserved));
    MapRoundTrip(t.kubeReserved, Field(doc, KubeReserved));
  }

  lemma EvictionFieldsRoundTrip(t: Typed, doc: Doc)
    requires Holds(doc, t)
    ensures FieldOk(doc, EvictionHard) && DecodeTyped(doc).evictionHard == DropEmpty(t.evictionHard)
    ensures FieldOk(doc, EvictionSoft) && DecodeTyped(doc).evictionSoft == DropEmpty(t.evictionSoft)
    ensures FieldOk(doc, EvictionSoftGracePeriod)
    ensures DecodeTyped(doc).evictionSoftGracePeriod == DropEmpty(t.evictionSoftGracePeriod)
  {
    MapRoundTrip(t.evictionHard, Field(doc, EvictionHard));
    MapRoundTrip(t.evictionSoft, Field(doc, EvictionSoft));
    MapRoundTrip(t.evictionSoftGracePeriod, Field(doc, EvictionSoftGracePeriod));
  }

  lemma HeldIsWellTyped(t: Typed, doc: Doc)
    requires Holds(doc, t)
    ensures WellTyped(doc)
  {
    IntFieldsRoundTrip(t, doc);
    PointerFieldsRoundTrip(t, doc);
    ReservedFieldsRoundTrip(t, doc);
    EvictionFieldsRoundTrip(t, doc);
  }

  lemma TypedRoundTrip(t: Typed, doc: Doc)
    requires Holds(doc, t)
    ensures WellTyped(doc) && DecodeTyped(doc) == Normal(t)
  {
    HeldIsWellTyped(t, doc);
    IntFieldsRoundTrip(t, doc);
    PointerFieldsRoundTrip(t, doc);
    ReservedFieldsRoundTrip(t, doc);
    EvictionFieldsRoundTrip(t, doc);
  }

  lemma NormalMeansNoEmptyMaps(t: Typed)
    ensures Normal(t) == t <==> NoEmptyMaps(t)
    ensures EncodeTyped(Normal(t)) == EncodeTyped(t)
  {
    assert forall f: TypedField :: EncodeField(Normal(t), f) == EncodeField(t, f);
  }

  /** The configurations that survive a round trip. */
  predicate Canonical(c: Config) {
    && NoEmptyMaps(c.typed)
    && (c.overflow == NoBytes
        || (c.overflow.Object? && c.overflow.doc != map[] && forall n :: n in c.overflow.doc ==> n.Other?))
  }

  predicate RoundTrips(c: Config) {
    Encode(c).Bytes? && Decode(Encode(c).text) == Decoded(c, true)
  }

  lemma MergedHolds(t: Typed, overflow: Doc)
    requires forall n :: n in overflow ==> n.Other?
    ensures Holds(overflow + EncodeTyped(t), t)
  {
    var doc := overflow + EncodeTyped(t);
    forall f: TypedField ensures Field(doc, f) == EncodedOrNull(t, f) {
      assert Known(f) in EncodeTyped(t) <==> EncodeField(t, f).Some?;
    }
  }

  lemma MergedKeepsUnknown(t: Typed, overflow: Doc)
    requires forall n :: n in overflow ==> n.Other?
    ensures Unknown(overflow + EncodeTyped(t)) == overflow
  {
  }

  lemma EncodeThenDecode(t: Typed, overflow: Doc)
    requires forall n :: n in overflow ==> n.Other?
    ensures Decode(Object(overflow + EncodeTyped(t))) == Decoded(Config(Normal(t), OverflowOf(overflow)), true)
  {
    MergedHolds(t, overflow);
    MergedKeepsUnknown(t, overflow);
    TypedRoundTrip(t, overflow + EncodeTyped(t));
  }

  /** The document has the field with this value, or does not have it. */
  predicate Carries(doc: Doc, f: TypedField, value: Option<Json>) {
    if value.None? then Known(f) !in doc else Known(f) in doc && doc[Known(f)] == value.value
  }

  predicate CarriesInt(doc: Doc, f: TypedField, i: int32) {
    Carries(doc, f, if i == 0 then None else Some(Int(i as int)))
  }

  predicate CarriesIntPtr(doc: Doc, f: TypedField, p: Option<int32>) {
    Carries(doc, f, if p.None? then None else Some(Int(p.value as int)))
  }

  /** A map of strings with exactly these entries, or nothing at all for an empty or nil map. */
  predicate CarriesMap(doc: Doc, f: TypedField, m: Option<StringMap>) {
    if m == None || m == Some(map[]) then Known(f) !in doc
    else
      && Known(f) in doc && doc[Known(f)].Obj? && doc[Known(f)].members.Keys == m.value.Keys
      && forall k :: k in m.value ==> doc[Known(f)].members[k] == Str(m.value[k])
  }

  /** The document has the field of `t` that goes by this name. */
  predicate CarriesField(doc: Doc, f: TypedField, t: Typed) {
    match f
    case MaxPods => CarriesInt(doc, f, t.maxPods)
    case PodsPerCore => CarriesInt(doc, f, t.podsPerCore)
    case SystemReserved => CarriesMap(doc, f, t.systemReserved)
    case KubeReserved => CarriesMap(doc, f, t.kubeReserved)
    case EvictionHard => CarriesMap(doc, f, t.evictionHard)
    case EvictionSoft => CarriesMap(doc, f, t.evictionSoft)
    case EvictionSoftGracePeriod => CarriesMap(doc, f, t.evictionSoftGracePeriod)
    case EvictionMaxPodGracePeriod => CarriesIntPtr(doc, f, t.evictionMaxPodGracePeriod)
    case ImageGCHighThresholdPercent => CarriesIntPtr(doc, f, t.imageGCHighThresholdPercent)
    case ImageGCLowThresholdPercent => CarriesIntPtr(doc, f, t.imageGCLowThresholdPercent)
    case CPUCFSQuota => Carries(doc, f, if t.cpuCFSQuota.None? then None else Some(Bool(t.cpuCFSQuota.value)))
  }

  lemma FieldIsUnderItsName(doc: Doc, f: TypedField, t: Typed)
    requires Carries(doc, f, EncodeField(t, f))
    ensures CarriesField(doc, f, t)
  {
  }

  lemma EncodedCarries(t: Typed, overflow: Doc, f: TypedField)
    ensures var doc := overflow + EncodeTyped(t);
      if EncodeField(t, f).Some? then Carries(doc, f, EncodeField(t, f)) else Field(doc, f) == Field(overflow, f)
  {
    assert Known(f) in EncodeTyped(t) <==> EncodeField(t, f).Some?;
  }

  /** The field has its zero value, so that `omitempty` leaves it out: a document without any field carries it. */
  predicate Omitted(t: Typed, f: TypedField) {
    CarriesField(map[], f, t)
  }

  /**
   Each field is encoded under its own name, in place of what the overflow may have there; a field that is left out
   does not hide the overflow, and unknown fields of the overflow stay.
   */
  lemma FieldsAreUnderTheirNames(t: Typed, overflow: Doc)
    ensures var encoded := Encode(Config(t, Object(overflow)));
      && encoded.Bytes? && encoded.text.Object?
      && (forall f: TypedField ::
            if Omitted(t, f) then Field(encoded.text.doc, f) == Field(overflow, f)
            else CarriesField(encoded.text.doc, f, t))
      && (forall name :: Other(name) in encoded.text.doc <==> Other(name) in overflow)
      && (forall name :: Other(name) in overflow ==> encoded.text.doc[Other(name)] == overflow[Other(name)])
  {
    var doc := overflow + EncodeTyped(t);
    forall f: TypedField
      ensures if Omitted(t, f) then Field(doc, f) == Field(overflow, f) else CarriesField(doc, f, t)
    {
      EncodedCarries(t, overflow, f);
      if EncodeField(t, f).Some? { FieldIsUnderItsName(doc, f, t); }
      OmittedIffNotEncoded(t, f);
    }
  }

  lemma OmittedIffNotEncoded(t: Typed, f: TypedField)
    ensures Omitted(t, f) <==> EncodeField(t, f).None?
  {
  }

  /** Encoding fails for an overflow that is no object, and panics for a null overflow that a field has to go into. */
  lemma EncodeFailsIff(c: Config)
    ensures Encode(c) == Error <==> c.overflow == Garbage || c.overflow == OtherValue
    ensures Encode(c) == Panic <==> c.overflow == NullText && exists f: TypedField :: !Omitted(c.typed, f)
  {
    forall f: TypedField ensures Omitted(c.typed, f) <==> Known(f) !in EncodeTyped(c.typed) {
      OmittedIffNotEncoded(c.typed, f);
    }
    if EncodeTyped(c.typed) != map[] {
      var n :| n in EncodeTyped(c.typed);
      assert !Omitted(c.typed, n.field);
    }
  }

  predicate IsInt32(j: Json) {
    j.Int? && -0x8000_0000 <= j.i <= 0x7FFF_FFFF
  }

  /** A value that the field takes: null, or one of its type; the values of a map are strings or null. */
  predicate Fits(f: TypedField, j: Json) {
    j.Null? ||
    match f
    case MaxPods => IsInt32(j)
    case PodsPerCore => IsInt32(j)
    case EvictionMaxPodGracePeriod => IsInt32(j)
    case ImageGCHighThresholdPercent => IsInt32(j)
    case ImageGCLowThresholdPercent => IsInt32(j)
    case CPUCFSQuota => j.Bool?
    case _ => j.Obj? && forall k :: k in j.members ==> j.members[k].Str? || j.members[k].Null?
  }

  /** Exactly the documents whose known fields have values of their types are decoded, and null. */
  lemma DecodesIff(data: Text)
    ensures Decode(data).ok <==>
      data == NullText || (data.Object? && forall f: TypedField :: Known(f) in data.doc ==> Fits(f, data.doc[Known(f)]))
  {
    if data.Object? {
      forall f: TypedField ensures FieldOk(data.doc, f) <==> (Known(f) in data.doc ==> Fits(f, data.doc[Known(f)])) {
      }
    }
  }

  /** Each field is decoded by itself, also when another one is rejected; then no overflow is kept. */
  lemma EachFieldByItself(doc: Doc, f: TypedField)
    requires Known(f) in doc
    ensures EncodeField(Decode(Object(doc)).value.typed, f)
         == EncodeField(Decode(Object(map[Known(f) := doc[Known(f)]])).value.typed, f)
    ensures !Decode(Object(doc)).ok ==> Decode(Object(doc)).value.overflow == NoBytes
  {
    var alone := map[Known(f) := doc[Known(f)]];
    assert Field(alone, f) == Field(doc, f);
  }

  /** Decode after encode is the identity exactly on the canonical configurations. */
  lemma RoundTripsIffCanonical(c: Config)
    ensures RoundTrips(c) <==> Canonical(c)
  {
    var overflow := if c.overflow.Object? then c.overflow.doc else map[];
    assert map[] + EncodeTyped(c.typed) == EncodeTyped(c.typed);
    NormalMeansNoEmptyMaps(c.typed);
    if Canonical(c) {
      EncodeThenDecode(c.typed, overflow);
    }
    if RoundTrips(c) {
      OverflowIsUnknown(Encode(c).text);
      EncodeThenDecode(c.typed, overflow);
    }
  }

  /** What encode after decode makes of a document. */
  function Normalised(doc: Doc): Doc {
    Unknown(doc) + EncodeTyped(DecodeTyped(doc))
  }

  lemma EncodeAfterDecode(doc: Doc)
    requires Decode(Object(doc)).ok
    ensures Encode(Decode(Object(doc)).value) == Bytes(Object(Normalised(doc)))
  {
    if Unknown(doc) == map[] {
      assert Normalised(doc) == EncodeTyped(DecodeTyped(doc));
    }
  }

  lemma NormalisedKeepsUnknown(doc: Doc)
    ensures Unknown(Normalised(doc)) == Unknown(doc)
  {
    MergedKeepsUnknown(DecodeTyped(doc), Unknown(doc));
  }

  lemma NormalisedAddsNoField(doc: Doc, f: TypedField)
    requires Known(f) in Normalised(doc)
    ensures Known(f) in doc
  {
    AbsentFieldsAreOmitted(doc, f);
  }

  lemma NormalisedIsWellTyped(doc: Doc)
    ensures Decode(Object(Normalised(doc))) == Decoded(Config(Normal(DecodeTyped(doc)), OverflowOf(Unknown(doc))), true)
  {
    EncodeThenDecode(DecodeTyped(doc), Unknown(doc));
  }

  lemma NormalisedDecodes(doc: Doc)
    ensures DecodeTyped(Normalised(doc)) == Normal(DecodeTyped(doc))
  {
    MergedHolds(DecodeTyped(doc), Unknown(doc));
    TypedRoundTrip(DecodeTyped(doc), Normalised(doc));
  }

  lemma NormalisedTwice(doc: Doc)
    ensures Normalised(Normalised(doc)) == Normalised(doc)
  {
    NormalisedDecodes(doc);
    NormalisedKeepsUnknown(doc);
    NormalMeansNoEmptyMaps(DecodeTyped(doc));
  }

  /**
   Encode after decode keeps every unknown field with its value, keeps a known name only with a decoded value, and
   does nothing more when it is done again.
   */
  lemma NormalisationKeepsUnknownFields(doc: Doc)
    requires Decode(Object(doc)).ok
    ensures Encode(Decode(Object(doc)).value) == Bytes(Object(Normalised(doc)))
    ensures Unknown(Normalised(doc)) == Unknown(doc)
    ensures forall f: TypedField :: Known(f) in Normalised(doc) ==> Known(f) in doc
    ensures Decode(Object(Normalised(doc))).ok
    ensures Encode(Decode(Object(Normalised(doc))).value) == Bytes(Object(Normalised(doc)))
  {
    EncodeAfterDecode(doc);
    NormalisedKeepsUnknown(doc);
    forall f: TypedField | Known(f) in Normalised(doc) ensures Known(f) in doc { NormalisedAddsNoField(doc, f); }
    NormalisedIsWellTyped(doc);
    EncodeAfterDecode(Normalised(doc));
    NormalisedTwice(doc);
  }

  lemma AbsentFieldsAreOmitted(doc: Doc, f: TypedField)
    ensures EncodeField(DecodeTyped(doc), f).Some? ==> Known(f) in doc
  {
  }

  /** IsZero means the zero configuration: HasTypedFields misses no field. */
  lemma ZeroMeansZero(c: Config)
    ensures IsZero(c) <==> c == ZERO_CONFIG
    ensures IsZero(c) ==> Encode(c) == Bytes(Object(map[]))
  {
    if IsZero(c) { assert forall f: TypedField :: EncodeField(ZERO, f).None?; }
  }

  /******* The methods in place *******/

  class KubeletConfiguration {
    var typed: Typed
    var overflow: Text

    /** The receiver's old value does not matter, also when the data is rejected. */
    method UnmarshalJSON(data: Text) returns (err: bool)
      modifies this
      ensures Decoded(Config(typed, overflow), !err) == Decode(data)
    {
      typed, overflow := ZERO, NoBytes;
      if data == NullText { return false; }
      if !data.Object? { return true; }
      typed := DecodeTyped(data.doc);
      if !WellTyped(data.doc) { return true; }

      var raw := data.doc;
      var known := List(set f: TypedField | true :: Known(f));
      for i := 0 to |known|
        invariant raw == map n | n in data.doc && n !in known[..i] :: data.doc[n]
      {
        assert known[..i + 1] == known[..i] + [known[i]];
        raw := raw - {known[i]};
      }
      assert known[..|known|] == known;
      assert forall n: Name :: n in known <==> n.Known? by {
        forall n: Name | n.Known? ensures n in known { assert Known(n.field) in known; }
      }
      assert raw == Unknown(data.doc);
      if raw != map[] { overflow := Object(raw); }
      return false;
    }

    method MarshalJSON() returns (result: Encoded)
      ensures result == Encode(Config(typed, overflow))
    {
      var data := EncodeTyped(typed);
      if overflow == NoBytes { return Bytes(Object(data)); }
      if overflow == Garbage || overflow == OtherValue { return Error; }
      if overflow == NullText {
        if data == map[] { return Bytes(NullText); }
        return Panic;
      }
      var overflowMap := overflow.doc;
      overflowMap := MergeInto(overflowMap, data);
      return Bytes(Object(overflowMap));
    }
  }

  lemma MergeOneMore<K, V>(base: map<K, V>, part: map<K, V>, k: K, v: V)
    ensures base + part[k := v] == (base + part)[k := v]
  {
  }

  method MergeInto<K(==, !new), V>(base: map<K, V>, over: map<K, V>) returns (merged: map<K, V>)
    ensures merged == base + over
  {
    merged := base;
    var order := List(over.Keys);
    ghost var part: map<K, V> := map[];
    for i := 0 to |order|
      invariant merged == base + part
      invariant forall k :: k in part <==> k in order[..i]
      invariant forall k :: k in part ==> k in over && part[k] == over[k]
    {
      assert order[..i + 1] == order[..i] + [order[i]];
      assert order[i] in order;
      MergeOneMore(base, part, order[i], over[order[i]]);
      part := part[order[i] := over[order[i]]];
      merged := merged[order[i] := over[order[i]]];
    }
    assert order[..|order|] == order;
    assert part == over;
  }
}
