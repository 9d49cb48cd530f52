/**
 * Playlists: the `videos` updates of `addVideoToPlaylist` (`$addToSet`) and
 * `removeVideoFromPlaylist` (`$pull`), the name/description update of
 * `updatePlaylist` and the creation of `createPlaylist`, over a collection
 * of playlist documents keyed by id.
 *
 * Two defects of the handlers are modelled twice, as written and corrected
 * (the collection methods use the corrected forms):
 *  - the id guards `!id && isValidObjectId(id)` can never reject an id;
 *    the corrected guard is the one the like and subscription handlers use;
 *  - `createPlaylist` calls an undeclared `Listing.create`, so it never
 *    creates anything; the corrected form creates through the playlist model.
 */
module Playlists {
  import opened Wrappers
  import opened Api
  import opened Sequences

  datatype Playlist = Playlist(name: string, description: string, owner: Id, videos: seq<Id>)

  const InvalidVideoId: ApiError := ApiError(400, "Invalid videoId")
  const InvalidPlaylistId: ApiError := ApiError(400, "Invalid playlistId")
  const AllFieldsRequired: ApiError := ApiError(400, "All fields are required!!")
  const AddFailed: ApiError := ApiError(500, "Something went wrong while adding video to playlist!!")
  const RemoveFailed: ApiError := ApiError(500, "Something went wrong while removing video to playlist!!")
  const UpdateFailed: ApiError := ApiError(500, "Something went wrong while updating playlist!!")

  /** What evaluating the undeclared `Listing` throws. */
  const ListingUndefined: ApiError := ApiError(500, "Listing is not defined")

  predicate NoDuplicates(s: seq<Id>)
  {
    forall i, j :: 0 <= i < j < |s| ==> s[i] != s[j]
  }

  // ----- `$addToSet` -----

  /** `$addToSet: { videos: v }`: `v` is appended unless it is already there. */
  function AddToSet(videos: seq<Id>, v: Id): (r: seq<Id>)
    ensures v in r
    ensures forall x :: x in r <==> x in videos || x == v
    ensures |videos| <= |r| <= |videos| + 1 && r[..|videos|] == videos
    ensures NoDuplicates(videos) ==> NoDuplicates(r)
  {
    if v in videos then videos else videos + [v]
  }

  /** Adding a video that is already there changes nothing, so adding twice is adding once. */
  lemma AddToSetIdempotent(videos: seq<Id>, v: Id)
    ensures v in videos ==> AddToSet(videos, v) == videos
    ensures AddToSet(AddToSet(videos, v), v) == AddToSet(videos, v)
  {
  }

  // ----- `$pull` -----

  /** `$pull: { videos: v }`: every occurrence of `v` is removed. */
  function Without(videos: seq<Id>, v: Id): (r: seq<Id>)
    ensures v !in r
    ensures forall x :: x in r <==> x in videos && x != v
    ensures forall x :: x != v ==> multiset(r)[x] == multiset(videos)[x]
    ensures |r| == |videos| - multiset(videos)[v]
    ensures IsSubsequence(r, videos)
  {
    if videos == [] then []
    else
      var init := videos[..|videos| - 1];
      var last := videos[|videos| - 1];
      assert videos == init + [last];
      var r := Without(init, v);
      if last == v then
        assert r != [] ==> IsSubsequence(r, init);
        r
      else
        assert (r + [last])[..|r|] == r;
        r + [last]
  }

  /** A video that is not in the playlist leaves it unchanged, so removing twice is removing once. */
  lemma WithoutAbsent(videos: seq<Id>, v: Id)
    requires v !in videos
    ensures Without(videos, v) == videos
  {
    if videos != [] {
      var init := videos[..|videos| - 1];
      assert videos == init + [videos[|videos| - 1]];
      WithoutAbsent(init, v);
    }
  }

  lemma WithoutIdempotent(videos: seq<Id>, v: Id)
    ensures Without(Without(videos, v), v) == Without(videos, v)
  {
    WithoutAbsent(Without(videos, v), v);
  }

  /** Removing a video undoes an add that appended it. */
  lemma RemoveUndoesAdd(videos: seq<Id>, v: Id)
    requires v !in videos
    ensures Without(AddToSet(videos, v), v) == videos
  {
    var s := videos + [v];
    assert s[..|s| - 1] == videos;
    WithoutAbsent(videos, v);
  }

  /** A remove introduces no duplicate. */
  lemma {:induction false} WithoutKeepsNoDuplicates(videos: seq<Id>, v: Id)
    requires NoDuplicates(videos)
    ensures NoDuplicates(Without(videos, v))
  {
    if videos != [] {
      var init := videos[..|videos| - 1];
      var last := videos[|videos| - 1];
      assert videos == init + [last];
      WithoutKeepsNoDuplicates(init, v);
      assert last !in init;
    }
  }

  // ----- input checks -----

  /** The corrected id checks of add and remove: the video id first, then the playlist id. */
  function CheckIds(playlistId: Option<string>, videoId: Option<string>, isValidObjectId: string -> bool)
    : (r: Result<(Id, Id), ApiError>)
    ensures r.Failure? <==> RejectsId(isValidObjectId, videoId) || RejectsId(isValidObjectId, playlistId)
    ensures r.Failure? && RejectsId(isValidObjectId, videoId) ==> r.error == InvalidVideoId
    ensures r.Failure? && !RejectsId(isValidObjectId, videoId) ==> r.error == InvalidPlaylistId
    ensures r.Success? ==> isValidObjectId(r.value.0) && isValidObjectId(r.value.1) &&
                           playlistId == Some(r.value.0) && videoId == Some(r.value.1)
  {
    if RejectsId(isValidObjectId, videoId) then Failure(InvalidVideoId)
    else if RejectsId(isValidObjectId, playlistId) then Failure(InvalidPlaylistId)
    else Success((playlistId.value, videoId.value))
  }

  /**
   * The guard as written, `!id && isValidObjectId(id)`: it fires only for the
   * empty string, and only if that counted as a valid ObjectId.
   */
  predicate GuardAsWritten(isValidObjectId: string -> bool, id: Option<string>)
    ensures GuardAsWritten(isValidObjectId, id) <==> id == Some("") && isValidObjectId("")
  {
    Falsy(id) && IsValidObjectId(isValidObjectId, id)
  }

  /** The id checks of add and remove as written. */
  function CheckIdsAsWritten(playlistId: Option<string>, videoId: Option<string>, isValidObjectId: string -> bool)
    : (r: Result<(), ApiError>)
    ensures r.Failure? <==> GuardAsWritten(isValidObjectId, videoId) || GuardAsWritten(isValidObjectId, playlistId)
  {
    if GuardAsWritten(isValidObjectId, videoId) then Failure(InvalidVideoId)
    else if GuardAsWritten(isValidObjectId, playlistId) then Failure(InvalidPlaylistId)
    else Success(())
  }

  /**
   * The written guard fires only for an empty id that is a valid ObjectId;
   * since the empty string is not one, the checks as written pass every input.
   */
  lemma CheckIdsAsWrittenNeverFail(playlistId: Option<string>, videoId: Option<string>, isValidObjectId: string -> bool)
    requires !isValidObjectId("")
    ensures CheckIdsAsWritten(playlistId, videoId, isValidObjectId).Success?
  {
  }

  /** A malformed id is let through as written and rejected by the corrected check. */
  lemma MalformedIdAdmitted(isValidObjectId: string -> bool)
    requires !isValidObjectId("abc")
    ensures CheckIdsAsWritten(Some("abc"), Some("abc"), isValidObjectId).Success?
    ensures CheckIds(Some("abc"), Some("abc"), isValidObjectId) == Failure(InvalidVideoId)
  {
  }

  /** `!name || !description`, the required-field check of create and update. */
  function CheckFields(name: Option<string>, description: Option<string>): (r: Result<(string, string), ApiError>)
    ensures r.Failure? <==> name.None? || name.value == "" || description.None? || description.value == ""
    ensures r.Failure? ==> r.error == AllFieldsRequired
    ensures r.Success? ==> r.value.0 != "" && r.value.1 != "" &&
                           name == Some(r.value.0) && description == Some(r.value.1)
  {
    if Falsy(name) || Falsy(description) then Failure(AllFieldsRequired)
    else Success((name.value, description.value))
  }

  /** `createPlaylist` as written: past the field check it evaluates the undeclared `Listing`. */
  function CreatePlaylistAsWritten(name: Option<string>, description: Option<string>): (r: Result<Playlist, ApiError>)
    ensures r.Failure?
    ensures r.error == AllFieldsRequired <==> CheckFields(name, description).Failure?
    ensures CheckFields(name, description).Success? ==> r.error == ListingUndefined
  {
    match CheckFields(name, description)
    case Failure(e) => Failure(e)
    case Success(_) => Failure(ListingUndefined)
  }

  /** Well-formed fields still yield no playlist as written. */
  lemma CreatePlaylistAsWrittenFails()
    ensures CreatePlaylistAsWritten(Some("Favourites"), Some("Clips to keep")) == Failure(ListingUndefined)
  {
    assert CheckFields(Some("Favourites"), Some("Clips to keep")).Success?;
  }

  /** The corrected `createPlaylist` document: the given fields, the caller as owner, no videos. */
  function NewPlaylist(name: Option<string>, description: Option<string>, owner: Id): (r: Result<Playlist, ApiError>)
    ensures r.Failure? <==> CheckFields(name, description).Failure?
    ensures r.Failure? ==> r.error == AllFieldsRequired
    ensures r.Success? ==> name == Some(r.value.name) && description == Some(r.value.description) &&
                           r.value.name != "" && r.value.description != "" &&
                           r.value.owner == owner && r.value.videos == []
  {
    match CheckFields(name, description)
    case Failure(e) => Failure(e)
    case Success(fields) => Success(Playlist(fields.0, fields.1, owner, []))
  }

  /** The corrected handler creates a playlist from any well-formed fields. */
  lemma NewPlaylistSucceeds(name: string, description: string, owner: Id)
    requires name != "" && description != ""
    ensures NewPlaylist(Some(name), Some(description), owner) == Success(Playlist(name, description, owner, []))
  {
  }

  class PlaylistCollection {
    var playlists: map<Id, Playlist>

    /** No playlist holds a video twice. */
    ghost predicate Valid()
      reads this
    {
      forall id :: id in playlists ==> NoDuplicates(playlists[id].videos)
    }

    constructor ()
      ensures playlists == map[]
      ensures Valid()
    {
      playlists := map[];
    }

    /** The corrected `createPlaylist`; `newId` is the id the store assigns. */
    method CreatePlaylist(name: Option<string>, description: Option<string>, owner: Id, newId: Id)
      returns (r: Result<Playlist, ApiError>)
      requires newId !in playlists
      modifies this
      ensures r == NewPlaylist(name, description, owner)
      ensures r.Failure? ==> playlists == old(playlists)
      ensures r.Success? ==> playlists == old(playlists)[newId := r.value]
      ensures old(Valid()) ==> Valid()
    {
      r := NewPlaylist(name, description, owner);
      if r.Success? {
        playlists := playlists[newId := r.value];
      }
    }

    /** `addVideoToPlaylist` with the corrected id checks; the result is the updated document. */
    method AddVideoToPlaylist(playlistId: Option<string>, videoId: Option<string>, isValidObjectId: string -> bool)
      returns (r: Result<Playlist, ApiError>)
      modifies this
      ensures CheckIds(playlistId, videoId, isValidObjectId).Failure? ==>
                r == Failure(CheckIds(playlistId, videoId, isValidObjectId).error) && playlists == old(playlists)
      ensures CheckIds(playlistId, videoId, isValidObjectId).Success? && playlistId.value !in old(playlists) ==>
                r == Failure(AddFailed) && playlists == old(playlists)
      ensures CheckIds(playlistId, videoId, isValidObjectId).Success? && playlistId.value in old(playlists) ==>
                var p := old(playlists)[playlistId.value];
                var p' := p.(videos := AddToSet(p.videos, videoId.value));
                playlists == old(playlists)[playlistId.value := p'] && r == Success(p')
      ensures old(Valid()) ==> Valid()
    {
      var ids := CheckIds(playlistId, videoId, isValidObjectId);
      if ids.Failure? {
        return Failure(ids.error);
      }
      var (pid, vid) := ids.value;
      if pid !in playlists {
        return Failure(AddFailed);
      }
      var p := playlists[pid];
      var p' := p.(videos := AddToSet(p.videos, vid));
      playlists := playlists[pid := p'];
      r := Success(p');
    }

    /** `removeVideoFromPlaylist` with the corrected id checks; the result is the updated document. */
    method RemoveVideoFromPlaylist(playlistId: Option<string>, videoId: Option<string>, isValidObjectId: string -> bool)
      returns (r: Result<Playlist, ApiError>)
      modifies this
      ensures CheckIds(playlistId, videoId, isValidObjectId).Failure? ==>
                r == Failure(CheckIds(playlistId, videoId, isValidObjectId).error) && playlists == old(playlists)
      ensures CheckIds(playlistId, videoId, isValidObjectId).Success? && playlistId.value !in old(playlists) ==>
                r == Failure(RemoveFailed) && playlists == old(playlists)
      ensures CheckIds(playlistId, videoId, isValidObjectId).Success? && playlistId.value in old(playlists) ==>
                var p := old(playlists)[playlistId.value];
                var p' := p.(videos := Without(p.videos, videoId.value));
                playlists == old(playlists)[playlistId.value := p'] && r == Success(p')
      ensures old(Valid()) ==> Valid()
    {
      var ids := CheckIds(playlistId, videoId, isValidObjectId);
      if ids.Failure? {
        return Failure(ids.error);
      }
      var (pid, vid) := ids.value;
      if pid !in playlists {
        return Failure(RemoveFailed);
      }
      var p := playlists[pid];
      if NoDuplicates(p.videos) {
        WithoutKeepsNoDuplicates(p.videos, vid);
      }
      var p' := p.(videos := Without(p.videos, vid));
      playlists := playlists[pid := p'];
      r := Success(p');
    }

    /** `updatePlaylist` with the corrected id check: `$set` of name and description, nothing else. */
    method UpdatePlaylist(playlistId: Option<string>, name: Option<string>, description: Option<string>,
                          isValidObjectId: string -> bool)
      returns (r: Result<Playlist, ApiError>)
      modifies this
      ensures RejectsId(isValidObjectId, playlistId) ==>
                r == Failure(InvalidPlaylistId) && playlists == old(playlists)
      ensures !RejectsId(isValidObjectId, playlistId) && CheckFields(name, description).Failure? ==>
                r == Failure(AllFieldsRequired) && playlists == old(playlists)
      ensures !RejectsId(isValidObjectId, playlistId) && CheckFields(name, description).Success? &&
              playlistId.value !in old(playlists) ==>
                r == Failure(UpdateFailed) && playlists == old(playlists)
      ensures !RejectsId(isValidObjectId, playlistId) && CheckFields(name, description).Success? &&
              playlistId.value in old(playlists) ==>
                var p := old(playlists)[playlistId.value];
                var p' := p.(name := name.value, description := description.value);
                playlists == old(playlists)[playlistId.value := p'] && r == Success(p')
      ensures old(Valid()) ==> Valid()
    {
      if RejectsId(isValidObjectId, playlistId) {
        return Failure(InvalidPlaylistId);
      }
      var fields := CheckFields(name, description);
      if fields.Failure? {
        return Failure(fields.error);
      }
      var pid := playlistId.value;
      if pid !in playlists {
        return Failure(UpdateFailed);
      }
      var p := playlists[pid];
      var p' := p.(name := fields.value.0, description := fields.value.1);
      playlists := playlists[pid := p'];
      r := Success(p');
    }
  }
}
