/** The session slice (features/userSlice.tsx): the signed-in user, or none. */
module UserSlice {
  import opened Common
  import opened Model

  /** The slice's single state object; `user` is `state.user`. */
  class UserSession {
    var user: Option<User>

    /** The initial state: nobody is signed in. */
    constructor ()
      ensures user == None
    {
      user := None;
    }

    /** `setUser(payload)`: the session holds exactly the payload, which may
        be `null`. */
    method SetUser(payload: Option<User>)
      modifies this
      ensures user == payload
    {
      user := payload;
    }

    /** `clearUser()`: nobody is signed in, whatever the state was. */
    method ClearUser()
      modifies this
      ensures user == None
    {
      user := None;
    }
  }
}
