/**
 * The like collection and its three toggles (video, comment, tweet), plus
 * the selection of `getLikedVideos`. A like record is keyed by what is
 * liked and by whom.
 */
module Likes {
  import opened Wrappers
  import opened Api
  import Toggling

  /** What a like points at: the one of `video`, `comment` or `tweet` the record sets. */
  datatype Target = Video(video: Id) | Comment(comment: Id) | Tweet(tweet: Id)

  datatype Like = Like(target: Target, likedBy: Id)

  /** The two messages of a successful toggle. */
  datatype Outcome = Liked | Unliked {
    function Message(): string
    {
      match this
      case Liked => "liked"
      case Unliked => "unliked"
    }
  }

  /** All three toggles reject with this error (the comment and tweet handlers reuse the video message). */
  const InvalidTargetId: ApiError := ApiError(401, "Invalid videoId!!")

  /** The videos `user` likes: the likes by `user` whose `video` is set. */
  function LikedVideosOf(likes: set<Like>, user: Id): (videos: set<Id>)
    ensures forall v :: v in videos <==> Like(Video(v), user) in likes
  {
    set l | l in likes && l.likedBy == user && l.target.Video? :: l.target.video
  }

  /** Toggling a video like of `user` flips that one video in the user's liked videos. */
  lemma ToggleVideoFlipsLikedVideos(likes: set<Like>, v: Id, user: Id)
    ensures LikedVideosOf(Toggling.Toggle(likes, Like(Video(v), user)), user) ==
              if v in LikedVideosOf(likes, user) then LikedVideosOf(likes, user) - {v}
              else LikedVideosOf(likes, user) + {v}
  {
  }

  /** A toggle by one user, or on a comment or tweet, leaves every other user's liked videos alone. */
  lemma ToggleKeepsOtherLikedVideos(likes: set<Like>, key: Like, user: Id)
    requires key.likedBy != user || !key.target.Video?
    ensures LikedVideosOf(Toggling.Toggle(likes, key), user) == LikedVideosOf(likes, user)
  {
  }

  class LikeCollection {
    var likes: set<Like>

    constructor ()
      ensures likes == {}
    {
      likes := {};
    }

    /** `findOneAndDelete(likeObject)`, and `Like.create(likeObject)` when nothing was deleted. */
    method Toggle(key: Like) returns (outcome: Outcome)
      modifies this
      ensures likes == Toggling.Toggle(old(likes), key)
      ensures outcome == if key in old(likes) then Unliked else Liked
    {
      if key in likes {
        likes := likes - {key};
        outcome := Unliked;
      } else {
        likes := likes + {key};
        outcome := Liked;
      }
    }

    /** The shared body of the three handlers: the id is checked before the collection is read. */
    method ToggleTarget(id: Option<string>, target: Id -> Target, user: Id, isValidObjectId: string -> bool)
      returns (r: Result<Outcome, ApiError>)
      modifies this
      ensures RejectsId(isValidObjectId, id) ==> r == Failure(InvalidTargetId) && likes == old(likes)
      ensures !RejectsId(isValidObjectId, id) ==>
                var key := Like(target(id.value), user);
                likes == Toggling.Toggle(old(likes), key) &&
                r == Success(if key in old(likes) then Unliked else Liked)
    {
      if RejectsId(isValidObjectId, id) {
        return Failure(InvalidTargetId);
      }
      var outcome := Toggle(Like(target(id.value), user));
      r := Success(outcome);
    }

    /** `toggleVideoLike`. */
    method ToggleVideoLike(videoId: Option<string>, user: Id, isValidObjectId: string -> bool)
      returns (r: Result<Outcome, ApiError>)
      modifies this
      ensures RejectsId(isValidObjectId, videoId) ==> r == Failure(InvalidTargetId) && likes == old(likes)
      ensures !RejectsId(isValidObjectId, videoId) ==>
                var key := Like(Video(videoId.value), user);
                likes == Toggling.Toggle(old(likes), key) &&
                r == Success(if key in old(likes) then Unliked else Liked)
    {
      r := ToggleTarget(videoId, v => Video(v), user, isValidObjectId);
    }

    /** `toggleCommentLike`. */
    method ToggleCommentLike(commentId: Option<string>, user: Id, isValidObjectId: string -> bool)
      returns (r: Result<Outcome, ApiError>)
      modifies this
      ensures RejectsId(isValidObjectId, commentId) ==> r == Failure(InvalidTargetId) && likes == old(likes)
      ensures !RejectsId(isValidObjectId, commentId) ==>
                var key := Like(Comment(commentId.value), user);
                likes == Toggling.Toggle(old(likes), key) &&
                r == Success(if key in old(likes) then Unliked else Liked)
    {
      r := ToggleTarget(commentId, c => Comment(c), user, isValidObjectId);
    }

    /** `toggleTweetLike`. */
    method ToggleTweetLike(tweetId: Option<string>, user: Id, isValidObjectId: string -> bool)
      returns (r: Result<Outcome, ApiError>)
      modifies this
      ensures RejectsId(isValidObjectId, tweetId) ==> r == Failure(InvalidTargetId) && likes == old(likes)
      ensures !RejectsId(isValidObjectId, tweetId) ==>
                var key := Like(Tweet(tweetId.value), user);
                likes == Toggling.Toggle(old(likes), key) &&
                r == Success(if key in old(likes) then Unliked else Liked)
    {
      r := ToggleTarget(tweetId, t => Tweet(t), user, isValidObjectId);
    }

    /** The `$match` of `getLikedVideos`: the videos the current user likes. */
    method GetLikedVideos(user: Id) returns (videos: set<Id>)
      ensures forall v :: v in videos <==> Like(Video(v), user) in likes
    {
      videos := LikedVideosOf(likes, user);
    }
  }

  /** Liking a video and toggling it again leaves the collection as it was. */
  method ToggleVideoTwice(c: LikeCollection, v: Id, user: Id, isValidObjectId: string -> bool)
    requires isValidObjectId(v) && v != ""
    modifies c
    ensures c.likes == old(c.likes)
  {
    var first := c.ToggleVideoLike(Some(v), user, isValidObjectId);
    var second := c.ToggleVideoLike(Some(v), user, isValidObjectId);
    Toggling.ToggleTwice(old(c.likes), Like(Video(v), user));
  }
}
