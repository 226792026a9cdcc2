/** exec_report_telegram_bot.py: the process-wide session map user_state and the role-based menus. */
module BotSession {
  import opened PyStr
  import opened Store
  import opened Roles

  /** The only value user_state ever holds: "awaiting_update". */
  datatype Mode = AwaitingUpdate

  /** The module-level dict user_state. */
  class Sessions {
    var userState: map<UserId, Mode>

    constructor ()
      ensures userState == map[]
    {
      userState := map[];
    }

    /** Whether handle_message accepts input from uid: user_state.get(uid) == "awaiting_update". */
    predicate Awaiting(uid: UserId)
      reads this
    {
      uid in userState && userState[uid] == AwaitingUpdate
    }
  }

  /** The menu entries, one per callback_data value (or reply-keyboard text) the bot offers. */
  datatype Button = SendUpdateButton | LastUpdateButton | RecentUpdatesButton | MoreOptionsButton
                  | ClearUpdatesButton | MainMenuButton

  /** The callback_data an inline button carries. */
  function CallbackData(b: Button): (d: string)
    ensures d != []
  {
    match b
    case SendUpdateButton => "send_update"
    case LastUpdateButton => "last_update"
    case RecentUpdatesButton => "recent_updates"
    case MoreOptionsButton => "more_options_exec"
    case ClearUpdatesButton => "clear_updates"
    case MainMenuButton => "main_menu"
  }

  /** The inline main menu of show_main_menu: executives read, everyone else writes. */
  function MainMenu(roles: RoleFlags): (m: seq<Button>)
    ensures |m| == 3
    ensures LastUpdateButton in m && RecentUpdatesButton in m
    ensures SendUpdateButton in m <==> !roles.executive
    ensures MoreOptionsButton in m <==> roles.executive
    ensures ClearUpdatesButton !in m && MainMenuButton !in m
  {
    if roles.executive then [LastUpdateButton, RecentUpdatesButton, MoreOptionsButton]
    else [SendUpdateButton, LastUpdateButton, RecentUpdatesButton]
  }

  /** The "more_options_exec" submenu of callback_handler; it does not look at the executive flag. */
  function MoreOptionsExecMenu(roles: RoleFlags): (m: seq<Button>)
    ensures |m| >= 2 && m[0] == SendUpdateButton && m[|m| - 1] == MainMenuButton
    ensures ClearUpdatesButton in m <==> roles.admin
    ensures LastUpdateButton !in m && RecentUpdatesButton !in m && MoreOptionsButton !in m
  {
    [SendUpdateButton] + (if roles.admin then [ClearUpdatesButton] else []) + [MainMenuButton]
  }

  /** The reply keyboard of the more_options handler: executives only. */
  function MoreOptionsMenu(roles: RoleFlags): (m: Option<seq<Button>>)
    ensures m.Some? <==> roles.executive
    ensures m.Some? ==> |m.value| >= 2 && m.value[0] == SendUpdateButton && (ClearUpdatesButton in m.value <==> roles.admin)
  {
    if roles.executive then Some(MoreOptionsExecMenu(roles)) else None
  }

  /** Every registered or unregistered user can reach "send update" in at most two presses: directly
      from the main menu, or through the executive's more-options submenu. Only admins are offered
      "clear updates", and never on the main menu. */
  lemma {:induction false} SendUpdateReachable(roles: RoleFlags)
    ensures SendUpdateButton in MainMenu(roles)
            || (MoreOptionsButton in MainMenu(roles) && SendUpdateButton in MoreOptionsExecMenu(roles))
    ensures ClearUpdatesButton in MainMenu(roles) + MoreOptionsExecMenu(roles) <==> roles.admin
  {
    var m, o := MainMenu(roles), MoreOptionsExecMenu(roles);
    assert ClearUpdatesButton in m + o <==> ClearUpdatesButton in o;
  }

  /** show_main_menu: pop the user's session entry (any pending "send update" is dropped) and build
      the menu from the user's, possibly memoised, roles. */
  method ShowMainMenu(sess: Sessions, cache: RoleCache, db: Database, uid: UserId) returns (menu: seq<Button>)
    modifies sess, cache
    ensures sess.userState == old(sess.userState) - {uid}
    ensures !sess.Awaiting(uid)
    ensures cache.entries == old(cache.entries)[uid := CachedRoles(old(cache.entries), db.users, uid)]
    ensures menu == MainMenu(CachedRoles(old(cache.entries), db.users, uid))
  {
    sess.userState := sess.userState - {uid};
    var roles := cache.Get(db, uid);
    menu := MainMenu(roles);
  }

  /** send_update: put the user into "awaiting_update"; nothing else changes. */
  method SendUpdate(sess: Sessions, uid: UserId)
    modifies sess
    ensures sess.userState == old(sess.userState)[uid := AwaitingUpdate]
    ensures sess.Awaiting(uid)
  {
    sess.userState := sess.userState[uid := AwaitingUpdate];
  }
}
