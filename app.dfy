/** The root component (app/App.js): the start-up authentication gate and the tab bar's
    active index. */
module App {
  import opened Wrappers

  /** What `getSession` yields: an exception, no session, or a session for an email. */
  datatype SessionFetch = SessionThrew | NoSession | HasSession(email: string)

  /** The `is_verified` and `hasCreatedAccount` columns of the user's profile row. */
  datatype Flags = Flags(isVerified: bool, hasCreatedAccount: bool)

  /** What the profile query yields: an exception, an error, or the row (null if missing). */
  datatype ProfileFetch = ProfileThrew | ProfileError | ProfileFetched(row: Option<Flags>)

  /** The gate's decision: a session, a profile row fetched without error, verified, with
      its account created. */
  function Authenticates(session: SessionFetch, profile: ProfileFetch): (r: bool)
    ensures r <==> session.HasSession? && profile == ProfileFetched(Some(Flags(true, true)))
  {
    match session
    case HasSession(_) =>
      (match profile
       case ProfileFetched(Some(flags)) => flags.isVerified && flags.hasCreatedAccount
       case _ => false)
    case _ => false
  }

  /** The labels of `tabItems`, by index. */
  const TabLabels: seq<string> := ["Home", "CreatePost", "Explore"]

  /** `handleTabPress`'s argument: an action name or a tab index. */
  datatype TabPress = ActionPress(action: string) | IndexPress(index: int)

  /** The navigation a tab press asks for. */
  datatype Navigation = NoNavigation | Navigate(screen: string) | ResetTo(screen: string)

  /** The root component's state. */
  class AppState {
    var isAuthenticated: bool
    var isReady: bool
    var activeIndex: int

    /** The active index always names a tab. */
    ghost predicate Valid()
      reads this
    {
      0 <= activeIndex < |TabLabels|
    }

    constructor ()
      ensures Valid() && !isAuthenticated && !isReady && activeIndex == 0
    {
      isAuthenticated, isReady, activeIndex := false, false, 0;
    }

    /** The start-up check: every failure path (no session, a thrown exception, a profile
        error, a missing or unfinished profile) leaves the user signed out, and the app is
        ready afterwards whatever happened. */
    method CheckAuthentication(session: SessionFetch, profile: ProfileFetch)
      modifies this`isAuthenticated, this`isReady
      ensures isReady
      ensures isAuthenticated == Authenticates(session, profile)
    {
      if session.SessionThrew? {
        isAuthenticated := false;
      } else if session.HasSession? {
        if profile.ProfileThrew? {
          isAuthenticated := false;
        } else if profile.ProfileError? || profile.row.None? {
          isAuthenticated := false;
        } else if !profile.row.value.isVerified || !profile.row.value.hasCreatedAccount {
          isAuthenticated := false;
        } else {
          isAuthenticated := true;
        }
      } else {
        isAuthenticated := false;
      }
      isReady := true;
    }

    /** `handleTabPress`: an index with a tab makes it active and resets the stack to that
        tab's screen; any other index, and every action, leaves the active index alone. */
    method HandleTabPress(press: TabPress) returns (nav: Navigation)
      requires Valid()
      modifies this`activeIndex
      ensures Valid()
      ensures press.IndexPress? && 0 <= press.index < |TabLabels| ==>
        activeIndex == press.index && nav == ResetTo(TabLabels[press.index])
      ensures !(press.IndexPress? && 0 <= press.index < |TabLabels|) ==> activeIndex == old(activeIndex)
      ensures press == ActionPress("liked") ==> nav == Navigate("Likes")
      ensures press.ActionPress? && press.action != "liked" ==> nav == NoNavigation
      ensures press.IndexPress? && !(0 <= press.index < |TabLabels|) ==> nav == NoNavigation
    {
      nav := NoNavigation;
      match press
      case ActionPress(action) =>
        if action == "liked" {
          nav := Navigate("Likes");
        }
      case IndexPress(index) =>
        if 0 <= index < |TabLabels| {
          activeIndex := index;
          nav := ResetTo(TabLabels[index]);
        }
    }
  }
}
