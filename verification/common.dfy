/** Values shared by every handler: record identifiers, optional request fields,
    and the outcome of a request handler. */
module Common {

  /** A document identifier (a Mongo ObjectId), drawn from one counter for all collections. */
  type Id = nat

  datatype Option<T> = None | Some(value: T)

  /** What a handler ends with: a value it responds with, an `ApiError` it
      throws (its `statusCode` and its `message`, named by a `Message` whose
      text is `Text(message)`), or an exception that is not an `ApiError` (a
      TypeError inside the handler), whose response is not modelled. */
  datatype Result<T> =
    | Ok(value: T)
    | Err(statusCode: int, message: Message)
    | Crash(reason: string)
  {
    /** The same failure, as the outcome of a handler with another result type. */
    function Propagate<U>(): Result<U>
      requires !Ok?
    {
      if Err? then Err(statusCode, message) else Crash(reason)
    }
  }

  /** The messages the handlers throw, one per distinct text. */
  datatype Message =
    // users.controller.js
    | NullUserRead | FieldsRequired | UserExists | AvatarRequired
    | IdentifierMissing | UserNotFound | WrongPassword
    // auth.middleware.js
    | NoToken | InvalidAccessToken | UnauthorizedToken
    // video.controller.js
    | UsernameRequired | ChannelNotFound | TitleDescriptionRequired
    | VideoFileRequired | ThumbnailRequired | VideoUploadFailed | ThumbnailUploadFailed
    | VideoIdRequired | VideoNotFoundById | VideoIdRequiredForUpdate | UpdateFieldRequired
    | VideoNotFound | NotOwnerUpdate | ThumbnailUpdateFailed | NotOwnerDelete
    // comment.controller.js
    | CommentVideoNotFound | PostVideoIdRequired | CommentTextRequired | NoVideoFound
    | CommentIdRequired | NewTextRequired | CommentNotFound | NotCommentOwner

  /** The exact text of each message, spelling as in the handlers. */
  function Text(m: Message): string
  {
    match m
    case NullUserRead => "Cannot read properties of null (reading 'generateAccessToken')"
    case FieldsRequired => "All fields are required"
    case UserExists => "Username or Email is already registered"
    case AvatarRequired => "Avatar is required"
    case IdentifierMissing => "username or email not found"
    case UserNotFound => "User does not exist"
    case WrongPassword => "Password is incorrect"
    case NoToken => "Unauthorized Request"
    case InvalidAccessToken => "Invalid Access Token"
    case UnauthorizedToken => "Unauthorized Acces Token"
    case UsernameRequired => "Username is required"
    case ChannelNotFound => "Channel Not Found"
    case TitleDescriptionRequired => "Titles and Description is required"
    case VideoFileRequired => "Video File is required "
    case ThumbnailRequired => "Thumbnail is required "
    case VideoUploadFailed => "Error while Uploading Video"
    case ThumbnailUploadFailed => "Error while Uploading Thumbnail"
    case VideoIdRequired => "Video ID is required"
    case VideoNotFoundById => "Video not Found"
    case VideoIdRequiredForUpdate => "Video Id is required"
    case UpdateFieldRequired => "Atlatest one field is required to update"
    case VideoNotFound => "Video Not Found"
    case NotOwnerUpdate => "You are not authorized to update this video"
    case ThumbnailUpdateFailed => "Error while uploading thumbnail"
    case NotOwnerDelete => "You are not authorized to delete this video"
    case CommentVideoNotFound => "Video with Such ID didnt Found"
    case PostVideoIdRequired => "Video ID is required to Post Comment"
    case CommentTextRequired => "Text is required for comment"
    case NoVideoFound => "No Video Found"
    case CommentIdRequired => "Comment ID is required"
    case NewTextRequired => "New Comment is Required"
    case CommentNotFound => "No Comment Found with such ID"
    case NotCommentOwner => "You are not Authorized to Delete this comment"
  }

  /** JavaScript truthiness of a request field: `undefined` and `""` are falsy. */
  predicate Truthy(s: Option<string>)
  {
    s.Some? && s.value != ""
  }
}
