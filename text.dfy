/**
 * The host's rich-text type and its JSON serialiser (`Text.Serializer`).
 * Neither is part of this model: the serialiser is a parameter, a pair of
 * total functions over an arbitrary text type, and what the lore helpers rely
 * on, that deserialising a serialised text gives it back, is a predicate on it.
 */
module Texts {
  datatype TextCodec<!Text> = TextCodec(toJson: Text -> string, fromJson: string -> Text)

  /** `fromJson(toJson(t)) == t` for every text. */
  ghost predicate RoundTrips<Text(!new)>(codec: TextCodec<Text>)
  {
    forall t :: codec.fromJson(codec.toJson(t)) == t
  }
}
