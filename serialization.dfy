/**
 * The serializers (`Amp\Serialization\Serializer`) that the serializing
 * caches and the promise-era atomic cache apply: a pair of functions
 * between values (null included) and strings, either of which may throw a
 * `SerializationException`.
 */
module Serialization {
  import opened Wrappers
  import opened CacheErrors

  datatype Serializer<!V> = Serializer(serialize: Option<V> -> Result<string, Error>,
                                      unserialize: string -> Result<Option<V>, Error>)

  /** Whatever a serializer manages to serialize, it unserializes back to the same value. */
  ghost predicate RoundTrips<V(!new)>(s: Serializer<V>) {
    forall v :: s.serialize(v).Success? ==> s.unserialize(s.serialize(v).value) == Success(v)
  }

  /**
   * What a serializing cache answers for the data its inner store returned:
   * null passes through without `unserialize` being called, anything else
   * is unserialized, and a failure of `unserialize` propagates.
   */
  function Decode<V>(s: Serializer<V>, data: Option<string>): (r: Result<Option<V>, Error>)
    ensures data.None? ==> r == Success(None)
    ensures data.Some? ==> r == s.unserialize(data.value)
  {
    match data
    case None => Success(None)
    case Some(d) => s.unserialize(d)
  }

  /**
   * Decoding what a round-trip serializer produced gives back the serialized
   * value: `RoundTrips` read at one value, stated as a convenience for
   * reasoning about a single write.
   */
  lemma DecodeEncoded<V(!new)>(s: Serializer<V>, v: Option<V>)
    requires RoundTrips(s) && s.serialize(v).Success?
    ensures Decode(s, Some(s.serialize(v).value)) == Success(v)
  {
  }

  /**
   * `PassthroughSerializer`, the default of the promise-era atomic cache:
   * strings are stored as they are, and anything else (null included) is
   * refused.
   */
  function Passthrough(): (s: Serializer<string>)
    ensures RoundTrips(s)
    ensures forall v :: s.serialize(v).Success? <==> v.Some?
  {
    Serializer((v: Option<string>) => if v.Some? then Success(v.value) else Failure(SerializationFailure),
               (d: string) => Success(Some(d)))
  }
}
