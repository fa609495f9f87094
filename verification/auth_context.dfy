/** The client's session: the token and user held in component state and their
    copies in the browser's local storage. */
module AuthContext {
  import opened Common
  import opened Types

  class AuthProvider {
    var token: Option<string>
    var user: Option<User>
    /** The `token` and `user` entries of local storage. */
    var storedToken: Option<string>
    var storedUser: Option<User>

    /** A token is held exactly when a user is. */
    predicate Valid()
      reads this
    {
      token.Some? <==> user.Some?
    }

    /** `!!token`: a held, non-empty token. */
    predicate IsAuthenticated()
      reads this
    {
      token.Some? && token.value != ""
    }

    /** `user?.role === 'ADMIN'`. */
    predicate IsAdmin()
      reads this
    {
      user.Some? && user.value.role == Admin
    }

    /** The provider starts with nothing in state; storage holds whatever an
        earlier visit left there. */
    constructor (storedToken: Option<string>, storedUser: Option<User>)
      ensures token == None && user == None
      ensures this.storedToken == storedToken && this.storedUser == storedUser
      ensures Valid()
    {
      token, user := None, None;
      this.storedToken, this.storedUser := storedToken, storedUser;
    }

    /** The start-up effect: the stored session is taken over only when both a
        non-empty token and a user are stored. */
    method RestoreSession()
      requires Valid()
      modifies this
      ensures storedToken == old(storedToken) && storedUser == old(storedUser)
      ensures old(storedToken).Some? && old(storedToken).value != "" && old(storedUser).Some? ==>
        token == old(storedToken) && user == old(storedUser)
      ensures !(old(storedToken).Some? && old(storedToken).value != "" && old(storedUser).Some?) ==>
        token == old(token) && user == old(user)
      ensures Valid()
    {
      if storedToken.Some? && storedToken.value != "" && storedUser.Some? {
        token := storedToken;
        user := storedUser;
      }
    }

    /** Takes over a session the server issued, in storage and in state. */
    method Adopt(response: AuthResponse)
      modifies this
      ensures storedToken == Some(response.token) && storedUser == Some(response.user)
      ensures token == Some(response.token) && user == Some(response.user)
      ensures Valid()
      ensures response.token != "" ==> IsAuthenticated()
      ensures IsAdmin() <==> response.user.role == Admin
    {
      storedToken := Some(response.token);
      storedUser := Some(response.user);
      token := Some(response.token);
      user := Some(response.user);
    }

    /** `login`: `response` is the server's answer, `None` when the request failed.
        A failure leaves everything as it was and is reported back (`failed`). */
    method Login(response: Option<AuthResponse>) returns (failed: bool)
      modifies this
      ensures failed <==> response.None?
      ensures response.Some? ==> token == Some(response.value.token) && user == Some(response.value.user)
      ensures response.Some? ==> storedToken == token && storedUser == user
      ensures response.None? ==> token == old(token) && user == old(user)
      ensures response.None? ==> storedToken == old(storedToken) && storedUser == old(storedUser)
      ensures old(Valid()) ==> Valid()
    {
      if response.None? {
        return true;
      }
      Adopt(response.value);
      failed := false;
    }

    /** `register`: the same bookkeeping as `login`. */
    method Register(response: Option<AuthResponse>) returns (failed: bool)
      modifies this
      ensures failed <==> response.None?
      ensures response.Some? ==> token == Some(response.value.token) && user == Some(response.value.user)
      ensures response.Some? ==> storedToken == token && storedUser == user
      ensures response.None? ==> token == old(token) && user == old(user)
      ensures response.None? ==> storedToken == old(storedToken) && storedUser == old(storedUser)
      ensures old(Valid()) ==> Valid()
    {
      if response.None? {
        return true;
      }
      Adopt(response.value);
      failed := false;
    }

    /** `logout`: clears the session everywhere. */
    method Logout()
      modifies this
      ensures token == None && user == None && storedToken == None && storedUser == None
      ensures !IsAuthenticated() && !IsAdmin()
      ensures Valid()
    {
      storedToken := None;
      storedUser := None;
      token := None;
      user := None;
    }
  }
}
