/**
 * What the controllers share: the error they throw (an HTTP status and a
 * message), identifiers, JavaScript falsiness of a request field and the
 * two shapes of ObjectId guard found in the controllers.
 */
module Api {
  import opened Wrappers

  /** A document identifier as it arrives in a route parameter or on `req.user._id`. */
  type Id = string

  /** The `ApiError(status, message)` a controller throws. */
  datatype ApiError = ApiError(status: nat, message: string)

  /** `!field` in JavaScript for a string field: absent (undefined) or the empty string. */
  predicate Falsy(field: Option<string>)
  {
    field.None? || field.value == ""
  }

  /**
   * mongoose's `isValidObjectId(field)`. The check on a present string is the
   * library's own and arrives as the uninterpreted `isValidObjectId`. The model
   * takes an absent field (undefined) as invalid; some library versions answer
   * otherwise, but a route parameter is always a present string.
   */
  predicate IsValidObjectId(isValidObjectId: string -> bool, field: Option<string>)
  {
    field.Some? && isValidObjectId(field.value)
  }

  /**
   * The guard `!id || !isValidObjectId(id)` of the like and subscription
   * controllers: it rejects exactly the ids that are missing or not ObjectIds.
   */
  predicate RejectsId(isValidObjectId: string -> bool, id: Option<string>)
    ensures !RejectsId(isValidObjectId, id) <==> id.Some? && id.value != "" && isValidObjectId(id.value)
  {
    Falsy(id) || !IsValidObjectId(isValidObjectId, id)
  }
}
