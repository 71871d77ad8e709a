/**
 * The session context of the frontend (frontend/contexts/user-context.tsx):
 * the current user, the `"user"` entry of `localStorage`, the route the
 * router was asked to visit, and the heartbeat interval that runs while a
 * session id is present. The stored JSON text is modelled by the record it
 * parses to.
 */
module UserContext {
  import opened Wrappers

  datatype User = User(username: string, sessionId: string)

  const AuthPath: string := "/auth"
  const PlaceholderSession: string := "new_session_id"

  /** `user?.session_id` is truthy: a user is present and the id is not empty. */
  predicate HasSession(u: Option<User>)
  {
    u.Some? && u.value.sessionId != ""
  }

  /** What one heartbeat POST came back with. */
  datatype Heartbeat = Rejected | Accepted | Threw

  class UserStore {
    var user: Option<User>
    /** `localStorage.getItem("user")`, parsed. */
    var stored: Option<User>
    /** Every `router.push`, oldest first. */
    var navigations: seq<string>
    /** Whether the 60-second heartbeat interval is installed. */
    var heartbeat: bool

    /** The heartbeat effect has run for the current user. */
    predicate Valid()
      reads this
    {
      heartbeat == HasSession(user)
    }

    /** The provider's first render: no user yet, whatever is in storage. */
    constructor (storage: Option<User>)
      ensures Valid()
      ensures user == None && stored == storage && navigations == [] && !heartbeat
    {
      user := None;
      stored := storage;
      navigations := [];
      heartbeat := false;
    }

    /** The mount effect, run for the current `pathname`. */
    method Mount(pathname: string)
      requires Valid()
      modifies this
      ensures Valid()
      ensures stored.Some? ==> user == stored && navigations == old(navigations)
      ensures stored.None? ==> user == old(user)
      ensures stored.None? && pathname != AuthPath ==> navigations == old(navigations) + [AuthPath]
      ensures stored.None? && pathname == AuthPath ==> navigations == old(navigations)
      ensures stored == old(stored)
    {
      if stored.Some? {
        user := stored;
        heartbeat := HasSession(user);
      } else if pathname != AuthPath {
        navigations := navigations + [AuthPath];
      }
    }

    /**
     * One heartbeat tick. Only a non-2xx answer clears the user; storage is
     * left as it is, and a network failure is only logged.
     */
    method Beat(outcome: Heartbeat)
      requires Valid() && heartbeat
      modifies this
      ensures Valid()
      ensures outcome == Rejected ==> user == None && !heartbeat
      ensures outcome != Rejected ==> user == old(user) && heartbeat
      ensures stored == old(stored) && navigations == old(navigations)
    {
      if outcome == Rejected {
        user := None;
        heartbeat := HasSession(user);
      }
    }

    /** `login`: a placeholder session id, kept in memory and in storage. */
    method Login(username: string, password: string)
      requires Valid()
      modifies this
      ensures Valid()
      ensures user == Some(User(username, PlaceholderSession)) && stored == user
      ensures heartbeat && navigations == old(navigations)
    {
      user := Some(User(username, PlaceholderSession));
      stored := user;
      heartbeat := HasSession(user);
    }

    /** `logout`: clears memory and storage and routes to the login page. */
    method Logout()
      requires Valid()
      modifies this
      ensures Valid()
      ensures user == None && stored == None && !heartbeat
      ensures navigations == old(navigations) + [AuthPath]
    {
      user := None;
      stored := None;
      navigations := navigations + [AuthPath];
      heartbeat := HasSession(user);
    }
  }

  /** A login followed by a reload restores the same user from storage. */
  method LoginThenReload(username: string, password: string, pathname: string) returns (restored: Option<User>)
    ensures restored == Some(User(username, PlaceholderSession))
  {
    var first := new UserStore(None);
    first.Login(username, password);
    var second := new UserStore(first.stored);
    second.Mount(pathname);
    restored := second.user;
  }

  /** A logout followed by a reload away from the login page routes there again. */
  method LogoutThenReload(start: Option<User>, pathname: string) returns (restored: Option<User>, routed: seq<string>)
    requires pathname != AuthPath
    ensures restored == None && routed == [AuthPath]
  {
    var first := new UserStore(start);
    first.Logout();
    var second := new UserStore(first.stored);
    second.Mount(pathname);
    restored := second.user;
    routed := second.navigations;
  }
}
