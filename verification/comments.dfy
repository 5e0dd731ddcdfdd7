/** The comment handlers: reading a video's comments, posting, editing and
    deleting a comment. Posting writes two collections: the comment itself and
    the video's list of comment ids. */
module Comments {
  import opened Common
  import opened Store

  /** `getComments`: the video named by the id. It writes nothing. */
  method GetComments(db: Db, videoId: Option<Id>) returns (r: Result<Video>)
    ensures videoId.None? ==> r == Err(400, VideoIdRequired)
    ensures videoId.Some? && videoId.value !in db.videos ==> r == Err(404, CommentVideoNotFound)
    ensures r.Ok? <==> videoId.Some? && videoId.value in db.videos
    ensures r.Ok? ==> r.value == db.videos[videoId.value]
    ensures !r.Crash?
  {
    if videoId.None? {
      return Err(400, VideoIdRequired);
    }
    if videoId.value !in db.videos {
      return Err(404, CommentVideoNotFound);
    }
    r := Ok(db.videos[videoId.value]);
  }

  /** The checks of `postComment`, in order: the video id, the text, the
      video's existence. `Ok(())` when all pass. */
  function CheckPost(videos: map<Id, Video>, videoId: Option<Id>, text: Option<string>): (r: Result<()>)
    ensures videoId.None? ==> r == Err(400, PostVideoIdRequired)
    ensures videoId.Some? && !Truthy(text) ==> r == Err(400, CommentTextRequired)
    ensures videoId.Some? && Truthy(text) && videoId.value !in videos ==> r == Err(404, NoVideoFound)
    ensures r.Ok? <==> videoId.Some? && Truthy(text) && videoId.value in videos
    ensures !r.Crash?
  {
    if videoId.None? then Err(400, PostVideoIdRequired)
    else if !Truthy(text) then Err(400, CommentTextRequired)
    else if videoId.value !in videos then Err(404, NoVideoFound)
    else Ok(())
  }

  /** `postComment` by the authenticated user `user`. A request failing a
      check writes nothing. Otherwise one comment is created under a fresh id,
      holding the text, the video and the author, and that id is appended at
      the end of the video's comment list; nothing else changes. */
  method PostComment(db: Db, user: Id, videoId: Option<Id>, text: Option<string>)
    returns (r: Result<(Id, Comment)>)
    requires db.Valid()
    modifies db
    ensures db.Valid()
    ensures db.users == old(db.users)
    ensures var check := CheckPost(old(db.videos), videoId, text);
      && (!check.Ok? ==>
            r == check.Propagate() && db.videos == old(db.videos) && db.comments == old(db.comments))
      && (check.Ok? ==>
            var vid := videoId.value;
            var v := old(db.videos)[vid];
            && r.Ok?
            && r.value.0 !in old(db.comments)
            && r.value.1 == Comment(text.value, vid, user)
            && db.comments == old(db.comments)[r.value.0 := r.value.1]
            && db.videos == old(db.videos)[vid := v.(comments := v.comments + [r.value.0])])
  {
    var check := CheckPost(db.videos, videoId, text);
    if !check.Ok? {
      return check.Propagate();
    }
    var vid := videoId.value;
    var id := db.NewId();
    var comment := Comment(text.value, vid, user);
    db.comments := db.comments[id := comment];
    var v := db.videos[vid];
    db.videos := db.videos[vid := v.(comments := v.comments + [id])];
    r := Ok((id, comment));
  }

  /** `updateComment`: any authenticated user may rewrite any comment's text;
      the handler checks no ownership. An id that names no comment updates
      nothing and answers with null. */
  method UpdateComment(db: Db, commentId: Option<Id>, text: Option<string>) returns (r: Result<Option<Comment>>)
    requires db.Valid()
    modifies db
    ensures db.Valid()
    ensures db.users == old(db.users) && db.videos == old(db.videos) && db.nextId == old(db.nextId)
    ensures commentId.None? ==> r == Err(400, CommentIdRequired)
    ensures commentId.Some? && !Truthy(text) ==> r == Err(400, NewTextRequired)
    ensures !r.Ok? ==> db.comments == old(db.comments)
    ensures r.Ok? <==> commentId.Some? && Truthy(text)
    ensures r.Ok? && commentId.value !in old(db.comments) ==> r.value.None? && db.comments == old(db.comments)
    ensures r.Ok? && commentId.value in old(db.comments) ==>
      var c := old(db.comments)[commentId.value].(text := text.value);
      && r.value == Some(c)
      && db.comments == old(db.comments)[commentId.value := c]
  {
    if commentId.None? {
      return Err(400, CommentIdRequired);
    }
    if !Truthy(text) {
      return Err(400, NewTextRequired);
    }
    var id := commentId.value;
    if id !in db.comments {
      return Ok(None);
    }
    var c := db.comments[id].(text := text.value);
    db.comments := db.comments[id := c];
    r := Ok(Some(c));
  }

  /** `deleteComment` by the authenticated user `user`: only the author may
      delete; a missing comment answers 404 and someone else's 403, and both
      leave it in place. Otherwise exactly that comment is removed. The id
      stays in its video's comment list. */
  method DeleteComment(db: Db, user: Id, commentId: Option<Id>) returns (r: Result<()>)
    requires db.Valid()
    modifies db
    ensures db.Valid()
    ensures db.users == old(db.users) && db.videos == old(db.videos) && db.nextId == old(db.nextId)
    ensures commentId.None? ==> r == Err(400, CommentIdRequired)
    ensures commentId.Some? && commentId.value !in old(db.comments) ==> r == Err(404, CommentNotFound)
    ensures commentId.Some? && commentId.value in old(db.comments) && old(db.comments)[commentId.value].user != user
            ==> r == Err(403, NotCommentOwner)
    ensures !r.Ok? ==> db.comments == old(db.comments)
    ensures r.Ok? <==>
      commentId.Some? && commentId.value in old(db.comments) && old(db.comments)[commentId.value].user == user
    ensures r.Ok? ==> db.comments == old(db.comments) - {commentId.value}
  {
    if commentId.None? {
      return Err(400, CommentIdRequired);
    }
    var id := commentId.value;
    if id !in db.comments {
      return Err(404, CommentNotFound);
    }
    if db.comments[id].user != user {
      return Err(403, NotCommentOwner);
    }
    db.comments := db.comments - {id};
    r := Ok(());
  }
}
