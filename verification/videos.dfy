/** The video handlers: listing a channel's videos, publishing, fetching (which
    counts a view), updating, deleting and toggling a like. Each one checks
    its request first and writes the videos collection only once every check
    has passed. */
module Videos {
  import opened Common
  import opened UserModel
  import opened Store

  // ---------------------------------------------------------------------
  // The array updates on `likes`

  /** `$pull: {likes: x}`: every occurrence of `x` removed, the rest kept in order. */
  function Pull(s: seq<Id>, x: Id): (r: seq<Id>)
    ensures x !in r
    ensures forall y :: y != x ==> (y in r <==> y in s)
    ensures multiset(r) == multiset(s)[x := 0]
    ensures NoDuplicates(s) ==> NoDuplicates(r)
    decreases |s|
  {
    if s == [] then []
    else
      assert s == [s[0]] + s[1..];
      var rest := Pull(s[1..], x);
      if s[0] == x then rest
      else
        if NoDuplicates(s) then
          NoDuplicatesTail(s);
          ConsNoDuplicates(s[0], rest);
          [s[0]] + rest
        else [s[0]] + rest
  }

  /** A list without duplicates: its head is not in its tail, and the tail has no duplicates. */
  lemma NoDuplicatesTail(s: seq<Id>)
    requires s != [] && NoDuplicates(s)
    ensures s[0] !in s[1..] && NoDuplicates(s[1..])
  {
    forall j | 0 <= j < |s[1..]|
      ensures s[1..][j] != s[0]
    {
      assert s[1..][j] == s[j + 1];
    }
  }

  /** Putting an id that is not in a duplicate-free list in front keeps it duplicate-free. */
  lemma ConsNoDuplicates(h: Id, t: seq<Id>)
    requires NoDuplicates(t) && h !in t
    ensures NoDuplicates([h] + t)
  {
    forall i, j | 0 <= i < j < |[h] + t|
      ensures ([h] + t)[i] != ([h] + t)[j]
    {
      assert ([h] + t)[j] == t[j - 1];
    }
  }

  /** `$addToSet: {likes: x}`: `x` appended at the end unless it is already
      there; the entries already present keep their places. */
  function AddToSet(s: seq<Id>, x: Id): (r: seq<Id>)
    ensures x in s ==> r == s
    ensures x !in s ==> r == s + [x]
    ensures x in r
    ensures forall y :: y != x ==> (y in r <==> y in s)
    ensures |s| <= |r| <= |s| + 1 && r[..|s|] == s
    ensures NoDuplicates(s) ==> NoDuplicates(r)
  {
    if x in s then s else s + [x]
  }

  /** The update `toggleVideoLike` sends: `$pull` when the user is in the
      list, `$addToSet` when not. The user's membership flips; every other
      user is listed exactly as often as before. */
  function ToggleLike(likes: seq<Id>, user: Id): (r: seq<Id>)
    ensures user in r <==> user !in likes
    ensures forall y :: y != user ==> multiset(r)[y] == multiset(likes)[y]
    ensures NoDuplicates(likes) ==> NoDuplicates(r)
  {
    if user in likes then Pull(likes, user) else AddToSet(likes, user)
  }

  /** A list without duplicates names each user at most once. */
  lemma {:induction false} NoDuplicatesCount(s: seq<Id>, y: Id)
    requires NoDuplicates(s)
    ensures multiset(s)[y] == (if y in s then 1 else 0)
    decreases |s|
  {
    if s != [] {
      assert s == [s[0]] + s[1..];
      assert NoDuplicates(s[1..]) by {
        forall i, j | 0 <= i < j < |s[1..]| ensures s[1..][i] != s[1..][j] {
          assert s[1..][i] == s[i + 1] && s[1..][j] == s[j + 1];
        }
      }
      NoDuplicatesCount(s[1..], y);
      if s[0] == y {
        assert y !in s[1..] by {
          forall k | 0 <= k < |s[1..]| ensures s[1..][k] != y {
            assert s[1..][k] == s[k + 1];
          }
        }
      }
    }
  }

  /** Toggling twice gives the original likes back as a collection: the same
      users, each as often as before (the list need not keep its order). */
  lemma ToggleTwiceRestores(likes: seq<Id>, user: Id)
    requires NoDuplicates(likes)
    ensures multiset(ToggleLike(ToggleLike(likes, user), user)) == multiset(likes)
  {
    NoDuplicatesCount(likes, user);
    if user in likes {
      assert ToggleLike(ToggleLike(likes, user), user) == Pull(likes, user) + [user];
    } else {
      assert ToggleLike(ToggleLike(likes, user), user) == Pull(likes + [user], user);
    }
  }

  /** `$pull` of an id that is not in the list changes nothing. */
  lemma {:induction false} PullAbsent(s: seq<Id>, x: Id)
    requires x !in s
    ensures Pull(s, x) == s
    decreases |s|
  {
    if s != [] {
      PullAbsent(s[1..], x);
    }
  }

  /** `$pull` works entry by entry, so it distributes over concatenation. */
  lemma {:induction false} PullAppend(s: seq<Id>, t: seq<Id>, x: Id)
    ensures Pull(s + t, x) == Pull(s, x) + Pull(t, x)
    decreases |s|
  {
    if s == [] {
      assert s + t == t;
    } else {
      assert (s + t)[1..] == s[1..] + t;
      assert (s + t)[0] == s[0];
      PullAppend(s[1..], t, x);
    }
  }

  /** Liking a video and then taking the like back gives the very same list. */
  lemma ToggleTwiceFromUnliked(likes: seq<Id>, user: Id)
    requires user !in likes
    ensures ToggleLike(ToggleLike(likes, user), user) == likes
  {
    PullAppend(likes, [user], user);
    PullAbsent(likes, user);
    assert Pull([user], user) == [];
  }

  // ---------------------------------------------------------------------
  // The `$set` of updateVideo

  /** `title || video.title`, `description || video.description`,
      `thumbnailUrl || video.thumbnail`: a field takes the value supplied when
      that value is truthy and keeps the stored one otherwise; nothing else
      in the video changes. */
  function MergeUpdate(v: Video, title: Option<string>, description: Option<string>, thumbnailUrl: Option<string>): (r: Video)
    ensures Truthy(title) ==> r.title == title.value
    ensures !Truthy(title) ==> r.title == v.title
    ensures Truthy(description) ==> r.description == description.value
    ensures !Truthy(description) ==> r.description == v.description
    ensures Truthy(thumbnailUrl) ==> r.thumbnail == thumbnailUrl.value
    ensures !Truthy(thumbnailUrl) ==> r.thumbnail == v.thumbnail
    ensures r.(title := v.title, description := v.description, thumbnail := v.thumbnail) == v
  {
    v.(title := if Truthy(title) then title.value else v.title,
       description := if Truthy(description) then description.value else v.description,
       thumbnail := if Truthy(thumbnailUrl) then thumbnailUrl.value else v.thumbnail)
  }

  /** Sending the same update twice has the effect of sending it once. */
  lemma MergeUpdateIdempotent(v: Video, title: Option<string>, description: Option<string>, thumbnailUrl: Option<string>)
    ensures MergeUpdate(MergeUpdate(v, title, description, thumbnailUrl), title, description, thumbnailUrl)
         == MergeUpdate(v, title, description, thumbnailUrl)
  {
  }

  /** An update that supplies no truthy value leaves the video as it was. */
  lemma MergeUpdateNothing(v: Video, title: Option<string>, description: Option<string>, thumbnailUrl: Option<string>)
    requires !Truthy(title) && !Truthy(description) && !Truthy(thumbnailUrl)
    ensures MergeUpdate(v, title, description, thumbnailUrl) == v
  {
  }

  // ---------------------------------------------------------------------
  // The handlers

  /** The owner as the `$lookup` projects it: id, user name, full name, avatar. */
  datatype OwnerView = OwnerView(id: Id, username: string, fullName: string, avatar: string)

  function ViewOf(id: Id, acc: Account): OwnerView
  {
    OwnerView(id, acc.username, acc.fullName, acc.avatar)
  }

  /** The body of `getAllVideos`' answer: the channel, its videos, their count. */
  datatype ChannelVideos = ChannelVideos(owner: OwnerView, videos: map<Id, Video>, totalVideos: nat)

  /** The videos the `$match: {owner}` stage keeps. */
  function OwnedBy(videos: map<Id, Video>, owner: Id): map<Id, Video>
  {
    map k | k in videos && videos[k].owner == owner :: videos[k]
  }

  /** `getAllVideos`. `findOne({username})` picks some account with that user
      name; the answer holds exactly the videos it owns, the count of them, and
      the owner's public fields. The `catch` rethrows each `ApiError` with its
      own status and message, so the two errors reach the client as thrown.
      It writes nothing. */
  method GetAllVideos(db: Db, username: Option<string>) returns (r: Result<ChannelVideos>)
    ensures !Truthy(username) ==> r == Err(400, UsernameRequired)
    ensures Truthy(username) && (forall k :: k in db.users ==> db.users[k].username != username.value)
            ==> r == Err(404, ChannelNotFound)
    ensures r.Err? || r.Ok?
    ensures Truthy(username) && (exists k :: k in db.users && db.users[k].username == username.value)
            ==> r.Ok?
    ensures r.Ok? ==>
      var id := r.value.owner.id;
      && Truthy(username)
      && id in db.users && db.users[id].username == username.value
      && r.value.owner == ViewOf(id, db.users[id])
      && (forall k :: k in r.value.videos <==> k in db.videos && db.videos[k].owner == id)
      && (forall k :: k in r.value.videos ==> r.value.videos[k] == db.videos[k])
      && r.value.totalVideos == |r.value.videos|
  {
    if !Truthy(username) {
      return Err(400, UsernameRequired);
    }
    if !exists k :: k in db.users && db.users[k].username == username.value {
      return Err(404, ChannelNotFound);
    }
    var id :| id in db.users && db.users[id].username == username.value;
    var videos := OwnedBy(db.videos, id);
    r := Ok(ChannelVideos(ViewOf(id, db.users[id]), videos, |videos|));
  }

  /** The video `uploadVideo` creates: the submitted title and description,
      duration and URL from the video upload, URL from the thumbnail upload,
      owned by the requester, with no views, likes, dislikes or comments. */
  function NewVideo(title: string, description: string, video: Upload, thumbnail: Upload, owner: Id): (v: Video)
    ensures v.owner == owner && v.views == 0 && v.likes == [] && v.dislikes == 0 && v.comments == []
    ensures v.duration == video.duration && v.videoFile == video.url && v.thumbnail == thumbnail.url
    ensures v.title == title && v.description == description
  {
    Video(title, description, video.duration, video.url, thumbnail.url, owner, 0, [], 0, [])
  }

  /** The checks of `uploadVideo`, in order: title and description, the video
      file, the thumbnail file, then the two uploads. `Ok(())` when all pass. */
  function CheckUpload(title: Option<string>, description: Option<string>,
                       videoPath: Option<string>, thumbnailPath: Option<string>,
                       video: Option<Upload>, thumbnail: Option<Upload>): (r: Result<()>)
    ensures !Truthy(title) || !Truthy(description) ==> r == Err(400, TitleDescriptionRequired)
    ensures Truthy(title) && Truthy(description) && !Truthy(videoPath) ==> r == Err(400, VideoFileRequired)
    ensures Truthy(title) && Truthy(description) && Truthy(videoPath) && !Truthy(thumbnailPath)
            ==> r == Err(400, ThumbnailRequired)
    ensures Truthy(title) && Truthy(description) && Truthy(videoPath) && Truthy(thumbnailPath) && video.None?
            ==> r == Err(500, VideoUploadFailed)
    ensures Truthy(title) && Truthy(description) && Truthy(videoPath) && Truthy(thumbnailPath) && video.Some?
              && thumbnail.None?
            ==> r == Err(500, ThumbnailUploadFailed)
    ensures r.Ok? <==>
      Truthy(title) && Truthy(description) && Truthy(videoPath) && Truthy(thumbnailPath)
      && video.Some? && thumbnail.Some?
    ensures !r.Crash?
  {
    if !Truthy(title) || !Truthy(description) then Err(400, TitleDescriptionRequired)
    else if !Truthy(videoPath) then Err(400, VideoFileRequired)
    else if !Truthy(thumbnailPath) then Err(400, ThumbnailRequired)
    else if video.None? then Err(500, VideoUploadFailed)
    else if thumbnail.None? then Err(500, ThumbnailUploadFailed)
    else Ok(())
  }

  /** `uploadVideo` by the authenticated user `user`. The local paths of the
      two files and the media host's answers to their uploads are parameters
      (an answer is None when the upload failed). A request failing a check
      writes nothing; otherwise exactly one video is added, under a fresh id. */
  method UploadVideo(db: Db, user: Id, title: Option<string>, description: Option<string>,
                     videoPath: Option<string>, thumbnailPath: Option<string>,
                     video: Option<Upload>, thumbnail: Option<Upload>)
    returns (r: Result<(Id, Video)>)
    requires db.Valid()
    modifies db
    ensures db.Valid()
    ensures db.users == old(db.users) && db.comments == old(db.comments)
    ensures var check := CheckUpload(title, description, videoPath, thumbnailPath, video, thumbnail);
      && (!check.Ok? ==> r == check.Propagate() && db.videos == old(db.videos))
      && (check.Ok? ==>
            && r.Ok? && r.value.0 !in old(db.videos)
            && r.value.1 == NewVideo(title.value, description.value, video.value, thumbnail.value, user)
            && db.videos == old(db.videos)[r.value.0 := r.value.1])
  {
    var check := CheckUpload(title, description, videoPath, thumbnailPath, video, thumbnail);
    if !check.Ok? {
      return check.Propagate();
    }
    var id := db.NewId();
    var created := NewVideo(title.value, description.value, video.value, thumbnail.value, user);
    db.videos := db.videos[id := created];
    r := Ok((id, created));
  }

  /** `getVideoById`: answers with the video as the aggregation read it, then
      adds exactly one to its stored view count; an unknown id changes
      nothing. */
  method GetVideoById(db: Db, videoId: Option<Id>) returns (r: Result<Video>)
    requires db.Valid()
    modifies db
    ensures db.Valid()
    ensures db.users == old(db.users) && db.comments == old(db.comments) && db.nextId == old(db.nextId)
    ensures videoId.None? ==> r == Err(400, VideoIdRequired) && db.videos == old(db.videos)
    ensures videoId.Some? && videoId.value !in old(db.videos)
            ==> r == Err(400, VideoNotFoundById) && db.videos == old(db.videos)
    ensures videoId.Some? && videoId.value in old(db.videos) ==>
      var v := old(db.videos)[videoId.value];
      && r == Ok(v)
      && db.videos == old(db.videos)[videoId.value := v.(views := v.views + 1)]
  {
    if videoId.None? {
      return Err(400, VideoIdRequired);
    }
    var id := videoId.value;
    if id !in db.videos {
      return Err(400, VideoNotFoundById);
    }
    var v := db.videos[id];
    db.videos := db.videos[id := v.(views := v.views + 1)];
    r := Ok(v);
  }

  /** The checks of `updateVideo` that come before its upload, in order: the
      id, at least one field, the video's existence, its owner. `Ok(())` when
      all pass. */
  function CheckUpdate(videos: map<Id, Video>, user: Id, videoId: Option<Id>,
                       title: Option<string>, description: Option<string>): (r: Result<()>)
    ensures videoId.None? ==> r == Err(400, VideoIdRequiredForUpdate)
    ensures videoId.Some? && !Truthy(title) && !Truthy(description) ==> r == Err(400, UpdateFieldRequired)
    ensures videoId.Some? && (Truthy(title) || Truthy(description)) && videoId.value !in videos
            ==> r == Err(400, VideoNotFound)
    ensures videoId.Some? && (Truthy(title) || Truthy(description)) && videoId.value in videos
              && videos[videoId.value].owner != user
            ==> r == Err(403, NotOwnerUpdate)
    ensures r.Ok? <==>
      && videoId.Some? && (Truthy(title) || Truthy(description))
      && videoId.value in videos && videos[videoId.value].owner == user
    ensures !r.Crash?
  {
    if videoId.None? then Err(400, VideoIdRequiredForUpdate)
    else if !Truthy(title) && !Truthy(description) then Err(400, UpdateFieldRequired)
    else if videoId.value !in videos then Err(400, VideoNotFound)
    else if videos[videoId.value].owner != user then Err(403, NotOwnerUpdate)
    else Ok(())
  }

  /** `updateVideo` by the authenticated user `user`. `thumbnailPath` is the
      optional new thumbnail file, `thumbnail` the media host's answer to its
      upload. Only the owner may update, and only title, description and
      thumbnail change, each kept where no new value is supplied. The update
      is stored, and then the response, sent with `.josn`, throws a TypeError:
      the handler never answers with the updated video. */
  method UpdateVideo(db: Db, user: Id, videoId: Option<Id>, title: Option<string>, description: Option<string>,
                     thumbnailPath: Option<string>, thumbnail: Option<Upload>)
    returns (r: Result<()>)
    requires db.Valid()
    modifies db
    ensures db.Valid()
    ensures db.users == old(db.users) && db.comments == old(db.comments) && db.nextId == old(db.nextId)
    ensures !r.Ok?
    ensures var check := CheckUpdate(old(db.videos), user, videoId, title, description);
      && (!check.Ok? ==> r == check.Propagate() && db.videos == old(db.videos))
      && (check.Ok? && Truthy(thumbnailPath) && thumbnail.None? ==>
            r == Err(500, ThumbnailUpdateFailed) && db.videos == old(db.videos))
      && (check.Ok? && !(Truthy(thumbnailPath) && thumbnail.None?) ==>
            var id := videoId.value;
            var url := if Truthy(thumbnailPath) then Some(thumbnail.value.url) else None;
            && r.Crash?
            && db.videos == old(db.videos)[id := MergeUpdate(old(db.videos)[id], title, description, url)])
  {
    var check := CheckUpdate(db.videos, user, videoId, title, description);
    if !check.Ok? {
      return check.Propagate();
    }
    var id := videoId.value;
    var thumbnailUrl: Option<string> := None;
    if Truthy(thumbnailPath) {
      if thumbnail.None? {
        return Err(500, ThumbnailUpdateFailed);
      }
      thumbnailUrl := Some(thumbnail.value.url);
    }
    db.videos := db.videos[id := MergeUpdate(db.videos[id], title, description, thumbnailUrl)];
    r := Crash("res.status(...).josn is not a function");
  }

  /** `deleteVideo` by the authenticated user `user`: a missing video and a
      video of someone else both answer 403 and change nothing; otherwise
      exactly that video is removed. Its comments stay in place. */
  method DeleteVideo(db: Db, user: Id, videoId: Option<Id>) returns (r: Result<()>)
    requires db.Valid()
    modifies db
    ensures db.Valid()
    ensures db.users == old(db.users) && db.comments == old(db.comments) && db.nextId == old(db.nextId)
    ensures videoId.None? ==> r == Err(400, VideoIdRequired)
    ensures videoId.Some? && videoId.value !in old(db.videos) ==> r == Err(403, VideoNotFound)
    ensures videoId.Some? && videoId.value in old(db.videos) && old(db.videos)[videoId.value].owner != user
            ==> r == Err(403, NotOwnerDelete)
    ensures !r.Ok? ==> db.videos == old(db.videos)
    ensures r.Ok? <==> videoId.Some? && videoId.value in old(db.videos) && old(db.videos)[videoId.value].owner == user
    ensures r.Ok? ==> db.videos == old(db.videos) - {videoId.value}
  {
    if videoId.None? {
      return Err(400, VideoIdRequired);
    }
    var id := videoId.value;
    if id !in db.videos {
      return Err(403, VideoNotFound);
    }
    if db.videos[id].owner != user {
      return Err(403, NotOwnerDelete);
    }
    db.videos := db.videos - {id};
    r := Ok(());
  }

  /** `toggleVideoLike` by the authenticated user `user`: the video's likes
      get the toggle's `$pull` or `$addToSet`, and then the response, whose
      object literal runs into a template literal and so is called as a tag
      function, throws a TypeError. */
  method ToggleVideoLike(db: Db, user: Id, videoId: Option<Id>) returns (r: Result<()>)
    requires db.Valid()
    modifies db
    ensures db.Valid()
    ensures db.users == old(db.users) && db.comments == old(db.comments) && db.nextId == old(db.nextId)
    ensures videoId.None? ==> r == Err(400, VideoIdRequired) && db.videos == old(db.videos)
    ensures videoId.Some? && videoId.value !in old(db.videos)
            ==> r == Err(404, VideoNotFound) && db.videos == old(db.videos)
    ensures videoId.Some? && videoId.value in old(db.videos) ==>
      var v := old(db.videos)[videoId.value];
      && r.Crash?
      && db.videos == old(db.videos)[videoId.value := v.(likes := ToggleLike(v.likes, user))]
  {
    if videoId.None? {
      return Err(400, VideoIdRequired);
    }
    var id := videoId.value;
    if id !in db.videos {
      return Err(404, VideoNotFound);
    }
    var v := db.videos[id];
    db.videos := db.videos[id := v.(likes := ToggleLike(v.likes, user))];
    r := Crash("an object literal is not a tag function");
  }
}
