/**
 * The subscription collection: the toggle of `toggleSubscription` and the
 * record selections of the subscriber list and the subscribed-channel list.
 * The join with the user collection that adds names and avatars is not
 * modelled; a list is given by the ids it selects.
 *
 * One defect is kept beside its corrected form: the `$lookup` of
 * `getSubscribedChannels` projects the undeclared identifiers `username` and
 * `avatar`, so building its pipeline throws for every accepted id.
 */
module Subscriptions {
  import opened Wrappers
  import opened Api
  import Toggling

  datatype Subscription = Subscription(subscriber: Id, channel: Id)

  const InvalidChannelId: ApiError := ApiError(400, "Invalid channel id!!")

  /**
   * A reply sent with `res.status(httpStatus).json(new ApiResponse(statusCode, {}, message))`:
   * the HTTP status and the status code inside the body differ in this controller.
   */
  datatype Reply = Reply(httpStatus: nat, statusCode: nat, message: string)

  /** The reply of `toggleSubscription`, the same after a delete and a create. */
  const Toggled: Reply := Reply(200, 201, "Subsription toggled successfully")

  /** What evaluating the undeclared `username` in the channel-list pipeline throws. */
  const UsernameUndefined: ApiError := ApiError(500, "username is not defined")

  /** The subscribers of `channel`: the records whose `channel` is that id. */
  function SubscribersOf(subs: set<Subscription>, channel: Id): (users: set<Id>)
    ensures forall u :: u in users <==> Subscription(u, channel) in subs
  {
    set s | s in subs && s.channel == channel :: s.subscriber
  }

  /** The channels `subscriber` follows: the records whose `subscriber` is that id. */
  function ChannelsOf(subs: set<Subscription>, subscriber: Id): (channels: set<Id>)
    ensures forall c :: c in channels <==> Subscription(subscriber, c) in subs
  {
    set s | s in subs && s.subscriber == subscriber :: s.channel
  }

  /** The two lists describe the same relation from its two ends. */
  lemma SubscribersAndChannelsAgree(subs: set<Subscription>, u: Id, c: Id)
    ensures u in SubscribersOf(subs, c) <==> c in ChannelsOf(subs, u)
  {
  }

  /**
   * Toggling `(user, channel)` flips `user` among the channel's subscribers
   * and `channel` among the user's channels, and no other list changes.
   */
  lemma ToggleChangesOnePair(subs: set<Subscription>, user: Id, channel: Id, u: Id, c: Id)
    ensures var subs' := Toggling.Toggle(subs, Subscription(user, channel));
      && (u in SubscribersOf(subs', c) <==>
            if u == user && c == channel then u !in SubscribersOf(subs, c) else u in SubscribersOf(subs, c))
      && (c in ChannelsOf(subs', u) <==>
            if u == user && c == channel then c !in ChannelsOf(subs, u) else c in ChannelsOf(subs, u))
  {
  }

  class SubscriptionCollection {
    var subscriptions: set<Subscription>

    constructor ()
      ensures subscriptions == {}
    {
      subscriptions := {};
    }

    /**
     * `toggleSubscription`: `findOneAndDelete` of the (user, channel) record,
     * and `Subscription.create` of it when nothing was deleted.
     */
    method ToggleSubscription(channelId: Option<string>, user: Id, isValidObjectId: string -> bool)
      returns (r: Result<Reply, ApiError>)
      modifies this
      ensures RejectsId(isValidObjectId, channelId) ==>
                r == Failure(InvalidChannelId) && subscriptions == old(subscriptions)
      ensures !RejectsId(isValidObjectId, channelId) ==>
                subscriptions == Toggling.Toggle(old(subscriptions), Subscription(user, channelId.value)) &&
                r == Success(Toggled)
    {
      if RejectsId(isValidObjectId, channelId) {
        return Failure(InvalidChannelId);
      }
      var key := Subscription(user, channelId.value);
      if key in subscriptions {
        subscriptions := subscriptions - {key};
      } else {
        subscriptions := subscriptions + {key};
      }
      r := Success(Toggled);
    }

    /** `getUserChannelSubscribers`: the subscribers of a valid channel id. */
    method GetUserChannelSubscribers(channelId: Option<string>, isValidObjectId: string -> bool)
      returns (r: Result<set<Id>, ApiError>)
      ensures r.Failure? <==> RejectsId(isValidObjectId, channelId)
      ensures r.Failure? ==> r.error == InvalidChannelId
      ensures r.Success? ==> forall u :: u in r.value <==> Subscription(u, channelId.value) in subscriptions
    {
      if RejectsId(isValidObjectId, channelId) {
        return Failure(InvalidChannelId);
      }
      r := Success(SubscribersOf(subscriptions, channelId.value));
    }

    /**
     * `getSubscribedChannels`, corrected: the channels a valid subscriber id
     * follows. As written it never gets past building its pipeline; see
     * `GetSubscribedChannelsAsWritten`.
     */
    method GetSubscribedChannels(subscriberId: Option<string>, isValidObjectId: string -> bool)
      returns (r: Result<set<Id>, ApiError>)
      ensures r.Failure? <==> RejectsId(isValidObjectId, subscriberId)
      ensures r.Failure? ==> r.error == InvalidChannelId
      ensures r.Success? ==> forall c :: c in r.value <==> Subscription(subscriberId.value, c) in subscriptions
    {
      if RejectsId(isValidObjectId, subscriberId) {
        return Failure(InvalidChannelId);
      }
      r := Success(ChannelsOf(subscriptions, subscriberId.value));
    }
  }

  /** Subscribing and toggling again leaves the collection as it was. */
  method ToggleSubscriptionTwice(c: SubscriptionCollection, channel: Id, user: Id, isValidObjectId: string -> bool)
    requires isValidObjectId(channel) && channel != ""
    modifies c
    ensures c.subscriptions == old(c.subscriptions)
  {
    var first := c.ToggleSubscription(Some(channel), user, isValidObjectId);
    var second := c.ToggleSubscription(Some(channel), user, isValidObjectId);
    Toggling.ToggleTwice(old(c.subscriptions), Subscription(user, channel));
  }

  /**
   * `getSubscribedChannels` as written: past the id check, the object literal
   * `{ username, avatar }` reads an undeclared identifier and throws.
   */
  function GetSubscribedChannelsAsWritten(subscriberId: Option<string>, isValidObjectId: string -> bool)
    : (r: Result<set<Id>, ApiError>)
    ensures r.Failure?
    ensures r.error == InvalidChannelId <==> RejectsId(isValidObjectId, subscriberId)
    ensures !RejectsId(isValidObjectId, subscriberId) ==> r.error == UsernameUndefined
  {
    if RejectsId(isValidObjectId, subscriberId) then Failure(InvalidChannelId)
    else Failure(UsernameUndefined)
  }

  /**
   * A user who follows a channel gets an error from the handler as written,
   * where the corrected handler lists that channel.
   */
  method ChannelListAsWrittenFails(c: SubscriptionCollection, user: Id, channel: Id, isValidObjectId: string -> bool)
    returns (written: Result<set<Id>, ApiError>, corrected: Result<set<Id>, ApiError>)
    requires isValidObjectId(user) && user != ""
    requires Subscription(user, channel) in c.subscriptions
    ensures written == Failure(UsernameUndefined)
    ensures corrected.Success? && channel in corrected.value
  {
    written := GetSubscribedChannelsAsWritten(Some(user), isValidObjectId);
    corrected := c.GetSubscribedChannels(Some(user), isValidObjectId);
  }
}
