/** exec_report_telegram_bot.py: the role-gated more-options keyboard (more_options) and the generic
    inline-button handler (callback_handler). */
module BotCallbacks {
  import opened PyStr
  import opened Store
  import opened Roles
  import opened BotSession
  import opened BotRetrieval
  import opened BotPurge

  /** more_options: executives get the submenu (with "clear updates" for admins), everyone else is
      refused (None). Only the role cache changes. */
  method MoreOptions(cache: RoleCache, db: Database, uid: UserId) returns (menu: Option<seq<Button>>)
    modifies cache
    ensures menu == MoreOptionsMenu(CachedRoles(old(cache.entries), db.users, uid))
    ensures menu.Some? <==> CachedRoles(old(cache.entries), db.users, uid).executive
    ensures cache.entries == old(cache.entries)[uid := CachedRoles(old(cache.entries), db.users, uid)]
  {
    var roles := cache.Get(db, uid);
    if !roles.executive {
      return None;
    }
    var again := cache.Get(db, uid);
    menu := Some(MoreOptionsExecMenu(again));
  }

  /** What callback_handler answers. */
  datatype CallbackOutcome =
    | SubMenu(buttons: seq<Button>)
    | Retrieved(retrieval: Retrieval)
    | Prompted
    | ClearAnswer(reply: ClearReply)
    | MainMenuShown(menu: seq<Button>)
    | UnknownAction(menu: seq<Button>)

  /** The callback_data values callback_handler has a branch for. */
  predicate KnownAction(action: string) {
    action in {"more_options_exec", "last_update", "recent_updates", "send_update", "clear_updates", "main_menu"}
  }

  /** callback_handler. "last_update" shows the single newest update and "recent_updates" the three
      newest, then the main menu, which drops the caller's session entry (a pending "send update"
      included); "clear_updates" only asks an admin to confirm; unknown data falls back to the main
      menu. Every branch but "send_update" memoises the caller's roles; no branch writes a table or
      a file. */
  method CallbackHandler(db: Database, sess: Sessions, cache: RoleCache, disk: Disk, uid: UserId, action: string)
    returns (out: CallbackOutcome)
    modifies sess, cache
    ensures var roles := CachedRoles(old(cache.entries), db.users, uid);
            action == "more_options_exec" ==>
              && out == SubMenu(MoreOptionsExecMenu(roles)) && sess.userState == old(sess.userState)
              && cache.entries == old(cache.entries)[uid := roles]
    ensures var roles := CachedRoles(old(cache.entries), db.users, uid);
            action == "last_update" ==>
              && out.Retrieved?
              && (out.retrieval.NoUpdatesYet? <==> Latest(db.updates, 1) == [])
              && (out.retrieval.NoUpdatesYet? ==>
                    sess.userState == old(sess.userState) && cache.entries == old(cache.entries))
              && (out.retrieval.Cards? ==>
                    && |out.retrieval.cards| == 1
                    && out.retrieval.cards[0] == Render(db.updates[|db.updates| - 1], disk.files)
                    && out.retrieval.menu == MainMenu(roles)
                    && sess.userState == old(sess.userState) - {uid}
                    && cache.entries == old(cache.entries)[uid := roles])
    ensures var roles := CachedRoles(old(cache.entries), db.users, uid);
            action == "recent_updates" ==>
              && out.Retrieved?
              && (out.retrieval.NoUpdatesYet? <==> Latest(db.updates, 3) == [])
              && (out.retrieval.NoUpdatesYet? ==>
                    sess.userState == old(sess.userState) && cache.entries == old(cache.entries))
              && (out.retrieval.Cards? ==>
                    && |out.retrieval.cards| == |Latest(db.updates, 3)| <= 3
                    && (forall i :: 0 <= i < |out.retrieval.cards| ==>
                          out.retrieval.cards[i] == Render(Latest(db.updates, 3)[i], disk.files))
                    && out.retrieval.menu == MainMenu(roles)
                    && sess.userState == old(sess.userState) - {uid}
                    && cache.entries == old(cache.entries)[uid := roles])
    ensures action == "send_update" ==>
              && out == Prompted && sess.userState == old(sess.userState)[uid := AwaitingUpdate]
              && cache.entries == old(cache.entries)
    ensures var roles := CachedRoles(old(cache.entries), db.users, uid);
            action == "clear_updates" ==>
              && out == ClearAnswer(if roles.admin then AskConfirm else NotAuthorized)
              && sess.userState == (if roles.admin then old(sess.userState) - {uid} else old(sess.userState))
              && cache.entries == old(cache.entries)[uid := roles]
    ensures var roles := CachedRoles(old(cache.entries), db.users, uid);
            action == "main_menu" ==>
              && out == MainMenuShown(MainMenu(roles)) && sess.userState == old(sess.userState) - {uid}
              && cache.entries == old(cache.entries)[uid := roles]
    ensures var roles := CachedRoles(old(cache.entries), db.users, uid);
            !KnownAction(action) ==>
              && out == UnknownAction(MainMenu(roles)) && sess.userState == old(sess.userState) - {uid}
              && cache.entries == old(cache.entries)[uid := roles]
  {
    if action == "more_options_exec" {
      var roles := cache.Get(db, uid);
      out := SubMenu(MoreOptionsExecMenu(roles));
    } else if action == "last_update" {
      var r := GetUpdates(db, sess, cache, disk, uid, 1);
      if r.Cards? {
        LatestIsSuffix(db.updates, 1);
      }
      out := Retrieved(r);
    } else if action == "recent_updates" {
      var r := GetUpdates(db, sess, cache, disk, uid, 3);
      out := Retrieved(r);
    } else if action == "send_update" {
      SendUpdate(sess, uid);
      out := Prompted;
    } else if action == "clear_updates" {
      var roles := cache.Get(db, uid);
      ghost var entries := cache.entries;
      if roles.admin {
        var reply := ClearUpdates(sess, cache, db, uid);
        assert cache.entries == entries;
        out := ClearAnswer(reply);
      } else {
        out := ClearAnswer(NotAuthorized);
      }
    } else if action == "main_menu" {
      var menu := ShowMainMenu(sess, cache, db, uid);
      out := MainMenuShown(menu);
    } else {
      var menu := ShowMainMenu(sess, cache, db, uid);
      out := UnknownAction(menu);
    }
  }
}
