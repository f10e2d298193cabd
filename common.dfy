/** Small value types shared by the route guard and the profile page. */
module Wrappers {

  /** A value that may be absent (JavaScript's `undefined`/`null`). */
  datatype Option<+T> = None | Some(value: T) {

    /** The value, or `default` when absent (a destructuring default). */
    function GetOr(default: T): T {
      match this
      case Some(v) => v
      case None => default
    }
  }
}

/** The signed-in user as the authentication hook hands it out. */
module Auth {
  import opened Wrappers

  /** The user record returned by the API (`name`, `email`, `avatar_url`). */
  datatype User = User(name: string, email: string, avatarUrl: string)

  /** The auth hook's `user`: `None` when nobody is signed in. */
  type Session = Option<User>

  /** JavaScript's `!!user`. */
  predicate SignedIn(user: Session) {
    user.Some?
  }
}
