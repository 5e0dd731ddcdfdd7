/** The document store: the three collections the handlers read and write,
    held in one object that the handlers update in place. */
module Store {
  import opened Common
  import opened UserModel

  /** What the media host answers to an upload: the asset's URL and, for a video, its duration. */
  datatype Upload = Upload(url: string, duration: real)

  /** A video document. `likes` is kept as a list of user ids, the way the
      handlers use it (`includes`, `$pull`, `$addToSet`). */
  datatype Video = Video(
    title: string,
    description: string,
    duration: real,
    videoFile: string,
    thumbnail: string,
    owner: Id,
    views: int,
    likes: seq<Id>,
    dislikes: int,
    comments: seq<Id>)

  /** No id appears twice: what `$addToSet` keeps true of a list. */
  predicate NoDuplicates(s: seq<Id>)
  {
    forall i, j :: 0 <= i < j < |s| ==> s[i] != s[j]
  }

  /** A comment document: its text, the video it is on and its author. */
  datatype Comment = Comment(text: string, video: Id, user: Id)

  class Db {
    var users: map<Id, Account>
    var videos: map<Id, Video>
    var comments: map<Id, Comment>
    /** The next ObjectId to hand out. */
    var nextId: Id

    /** Every id handed out so far is below `nextId`, so ids are never reused;
        and no video's likes list names a user twice. */
    ghost predicate Valid()
      reads this
    {
      && (forall k :: k in users ==> k < nextId)
      && (forall k :: k in videos ==> k < nextId)
      && (forall k :: k in comments ==> k < nextId)
      && (forall k :: k in videos ==> NoDuplicates(videos[k].likes))
    }

    constructor ()
      ensures Valid()
      ensures users == map[] && videos == map[] && comments == map[]
    {
      users, videos, comments := map[], map[], map[];
      nextId := 0;
    }

    /** A fresh ObjectId: used by no document of any collection. */
    method NewId() returns (id: Id)
      requires Valid()
      modifies this`nextId
      ensures Valid()
      ensures id == old(nextId) && nextId == id + 1
      ensures id !in users && id !in videos && id !in comments
    {
      id := nextId;
      nextId := nextId + 1;
    }

    /** `User.create`: the account is stored under a fresh id; the other
        accounts and the other collections stay as they were. */
    method InsertUser(acc: Account) returns (id: Id)
      requires Valid()
      modifies this
      ensures Valid()
      ensures id !in old(users) && users == old(users)[id := acc]
      ensures videos == old(videos) && comments == old(comments)
    {
      id := NewId();
      users := users[id := acc];
    }
  }
}
