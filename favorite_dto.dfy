/** FavoriteParamsDTO declares the same `restaurant_id` schema as
    RestaurantParamsDTO, so the favorite routes use
    RestaurantDto.DecodeRestaurantParams; these lemmas state what that
    schema accepts and refuses. */
module FavoriteDto {
  import opened Wrappers
  import opened Json
  import opened Zod
  import Text
  import RestaurantDto

  /** The path segment is coerced from its decimal text. */
  lemma IdCoercedFromPath(p: Json, k: nat)
    requires k >= 1
    requires p.JObj? && "restaurant_id" in p.fields && p.fields["restaurant_id"] == JStr(Text.NatToString(k))
    ensures RestaurantDto.DecodeRestaurantParams(p) == Ok(k)
  {
    PositiveIdOfDigits(k, ["restaurant_id"], "INVALID_RESTAURANT_ID");
  }

  /** A value that is a number but not an integer is refused by `.int()`. */
  lemma NonIntegerIdRejected(p: Json, x: real)
    requires p.JObj? && Coerce(Get(p, "restaurant_id")) == Fin(x) && !IsInteger(x)
    ensures RestaurantDto.DecodeRestaurantParams(p) == Err(Issue(["restaurant_id"], NotIntegerMessage))
  {
    var checks := [IntCheck(NotIntegerMessage)] + [PositiveCheck("INVALID_RESTAURANT_ID")];
    assert FirstNumFailure(checks, x) == Some(NotIntegerMessage);
  }

  /** Zero and negative integers are refused with INVALID_RESTAURANT_ID. */
  lemma NonPositiveIdRejected(p: Json, x: real)
    requires p.JObj? && Coerce(Get(p, "restaurant_id")) == Fin(x) && IsInteger(x) && x <= 0.0
    ensures RestaurantDto.DecodeRestaurantParams(p) == Err(Issue(["restaurant_id"], "INVALID_RESTAURANT_ID"))
  {
    var checks := [IntCheck(NotIntegerMessage)] + [PositiveCheck("INVALID_RESTAURANT_ID")];
    assert checks[1..] == [PositiveCheck("INVALID_RESTAURANT_ID")];
    assert FirstNumFailure(checks, x) == Some("INVALID_RESTAURANT_ID");
  }

  /** The schema is not strict: any other path key has no effect. */
  lemma OtherKeysIgnored(fields: map<string, Json>, key: string, v: Json)
    requires key != "restaurant_id"
    ensures RestaurantDto.DecodeRestaurantParams(JObj(fields[key := v]))
      == RestaurantDto.DecodeRestaurantParams(JObj(fields))
  {
    assert Get(JObj(fields[key := v]), "restaurant_id") == Get(JObj(fields), "restaurant_id");
  }
}
