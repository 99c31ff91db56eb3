/** The log-masking hook of `main.go`: before a request or response field map
    is logged, a phone number longer than three bytes is replaced by its masked
    form. The masking routine itself (`strings.Mask(s, 0, 3, "*")` from the
    core-go log library) is not part of this model; it is passed in as
    `maskFn`, so everything proved here holds whatever that routine does. */
module Masking {
  import opened Values

  /** The only key the hook looks at: the bytes of "phone". */
  const PhoneKey: GoString := [0x70, 0x68, 0x6F, 0x6E, 0x65]

  /** Strings of at most this many bytes are left as they are. */
  const KeepBytes: nat := 3

  /** True when the hook rewrites value `v`: it is a string longer than
      `KeepBytes` bytes. */
  predicate Maskable(v: Value)
  {
    v.Str? && |v.s| > KeepBytes
  }

  /** What the entry under `k` must look like after masking `obj`: the phone
      entry, when maskable, holds `maskFn` of the old string; every other
      entry is untouched. */
  ghost predicate MaskedEntry(obj: FieldMap, out: FieldMap, k: GoString, maskFn: GoString -> GoString)
    requires k in obj && k in out
  {
    if k == PhoneKey && Maskable(obj[k]) then out[k] == Str(maskFn(obj[k].s))
    else out[k] == obj[k]
  }

  /** `Mask` (main.go): the map as it stands after the hook, which rewrites
      the phone entry when it is present, is a string, and is longer than
      three bytes. The Go hook updates the caller's map; here the updated
      map is returned instead. */
  function Mask(obj: FieldMap, maskFn: GoString -> GoString): (out: FieldMap)
    ensures out.Keys == obj.Keys
    ensures forall k :: k in obj ==> k in out && MaskedEntry(obj, out, k, maskFn)
    ensures PhoneKey !in obj ==> out == obj
    ensures PhoneKey in obj && !obj[PhoneKey].Str? ==> out == obj
    ensures PhoneKey in obj && obj[PhoneKey].Str? && |obj[PhoneKey].s| <= KeepBytes ==> out == obj
    ensures PhoneKey in obj && Maskable(obj[PhoneKey]) ==> out[PhoneKey] == Str(maskFn(obj[PhoneKey].s))
    ensures forall k :: k in obj && k != PhoneKey ==> out[k] == obj[k]
  {
    if PhoneKey in obj then
      var v := obj[PhoneKey];
      if v.Str? && |v.s| > KeepBytes then obj[PhoneKey := Str(maskFn(v.s))]
      else obj
    else obj
  }

  /** Masking is idempotent as soon as the masking routine is: the guard adds
      no second rewrite of its own, whether or not the masked string is still
      longer than three bytes. */
  lemma MaskIdempotent(obj: FieldMap, maskFn: GoString -> GoString)
    requires forall s: GoString :: |s| > KeepBytes ==> maskFn(maskFn(s)) == maskFn(s)
    ensures Mask(Mask(obj, maskFn), maskFn) == Mask(obj, maskFn)
  {
  }
}
