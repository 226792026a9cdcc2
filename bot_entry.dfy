/** exec_report_telegram_bot.py: the entry and exit wrappers around the onboarding conversation,
    get_user_data with its visit log, and the ConversationHandler's bookkeeping of the state. */
module BotEntry {
  import opened PyStr
  import opened Store
  import opened Roles
  import opened Onboarding
  import opened BotSession

  /** get_user_data: the user's row, logging a visit stamped with the clock when there is one. */
  method GetUserData(db: Database, uid: UserId) returns (row: Option<UserRow>)
    requires db.Valid()
    modifies db
    ensures db.Valid()
    ensures row == LookupUser(db.users, uid)
    ensures db.organizations == old(db.organizations) && db.users == old(db.users) && db.updates == old(db.updates)
    ensures row.Some? ==> db.visits == old(db.visits) + [Visit(uid, old(db.clock))] && db.clock == old(db.clock) + 1
    ensures row.None? ==> db.visits == old(db.visits) && db.clock == old(db.clock)
  {
    row := LookupUser(db.users, uid);
    if row.Some? {
      db.visits := db.visits + [Visit(uid, db.clock)];
      db.clock := db.clock + 1;
    }
  }

  /** start_wrapper: a registered user gets the main menu and the conversation ends at once, with
      exactly one visit logged; anyone else starts onboarding at FIRST_NAME and no visit is logged. */
  method StartWrapper(db: Database, sess: Sessions, cache: RoleCache, uid: UserId)
    returns (next: Next, menu: Option<seq<Button>>)
    requires db.Valid()
    modifies db, sess, cache
    ensures db.Valid()
    ensures db.organizations == old(db.organizations) && db.users == old(db.users) && db.updates == old(db.updates)
    ensures uid in old(db.users) ==>
              && next == End
              && db.visits == old(db.visits) + [Visit(uid, old(db.clock))] && db.clock == old(db.clock) + 1
              && menu == Some(MainMenu(CachedRoles(old(cache.entries), db.users, uid)))
              && sess.userState == old(sess.userState) - {uid}
              && cache.entries == old(cache.entries)[uid := CachedRoles(old(cache.entries), db.users, uid)]
    ensures uid !in old(db.users) ==>
              && next == Goto(FirstName)
              && db.visits == old(db.visits) && db.clock == old(db.clock)
              && menu.None?
              && sess.userState == old(sess.userState) && cache.entries == old(cache.entries)
  {
    var row := GetUserData(db, uid);
    if row.Some? {
      var m := ShowMainMenu(sess, cache, db, uid);
      return End, Some(m);
    }
    next := Start();
    menu := None;
  }

  /** org_name_wrapper: "onboarding_complete" shows the main menu and ends the conversation;
      "retry_org_name" goes back to ORG_NAME; an exception from org_name passes through, so the
      ConversationHandler stays at ORG_NAME and no menu is shown. */
  method OrgNameWrapper(data: UserData, db: Database, sess: Sessions, cache: RoleCache, sender: Sender, text: string)
    returns (next: Next, menu: Option<seq<Button>>)
    requires db.Valid()
    modifies data, db, sess, cache
    ensures db.Valid()
    ensures db.updates == old(db.updates) && db.visits == old(db.visits) && db.clock == old(db.clock)
    ensures data.firstName == old(data.firstName) && data.surname == old(data.surname)
    ensures var o := OrgNameEffect(old(data.choice), Tables(old(db.organizations), old(db.users)), sender,
                                   old(data.firstName), old(data.surname), text);
            Tables(db.organizations, db.users) == o.tables && data.choice == o.choice
    ensures OrgNameCompletes(old(data.choice), old(db.organizations), text) ==>
              && next == End
              && menu == Some(MainMenu(CachedRoles(old(cache.entries), db.users, sender.id)))
              && sess.userState == old(sess.userState) - {sender.id}
              && cache.entries == old(cache.entries)[sender.id := CachedRoles(old(cache.entries), db.users, sender.id)]
    ensures OrgNameRaises(old(data.choice), old(db.organizations), text) ==>
              && next == Stay && menu.None?
              && sess.userState == old(sess.userState) && cache.entries == old(cache.entries)
    ensures !OrgNameCompletes(old(data.choice), old(db.organizations), text)
            && !OrgNameRaises(old(data.choice), old(db.organizations), text) ==>
              && next == Goto(OrgName) && menu.None?
              && sess.userState == old(sess.userState) && cache.entries == old(cache.entries)
  {
    var result := HandleOrgName(data, db, sender, text);
    if result == OnboardingComplete {
      var m := ShowMainMenu(sess, cache, db, sender.id);
      return End, Some(m);
    } else if result == OrgNameRaised {
      return Stay, None;
    }
    next := Goto(OrgName);
    menu := None;
  }

  /** The role cache is never cleared by onboarding: a user whose "not registered" roles were
      memoised before creating an organization is shown the non-executive menu, though the table
      now makes them admin and executive. */
  lemma {:induction false} CreatorMenuFromStaleCache(entries: map<UserId, RoleFlags>, users: map<UserId, UserRow>,
                                                     uid: UserId, username: string, first: string, sur: string, org: string)
    requires uid in entries && entries[uid] == GetUserRoles(None)
    ensures var after := CreateUpsert(users, uid, username, first, sur, org);
            && GetUserRoles(LookupUser(after, uid)).executive
            && SendUpdateButton in MainMenu(CachedRoles(entries, after, uid))
            && MoreOptionsButton !in MainMenu(CachedRoles(entries, after, uid))
  {
    var after := CreateUpsert(users, uid, username, first, sur, org);
    assert CachedRoles(entries, after, uid) == GetUserRoles(None);
  }

  /** The state the ConversationHandler records after a handler answers next in state current
      (None: outside the conversation). */
  function AfterStep(current: Option<ConvState>, next: Next): (s: Option<ConvState>)
    ensures next.Goto? ==> s == Some(next.state)
    ensures next == End ==> s.None?
    ensures next == Stay ==> s == current
  {
    match next
    case Goto(st) => Some(st)
    case End => None
    case Stay => current
  }

  /** The onboarding states run FIRST_NAME, SURNAME, ORG_CHOICE, ORG_NAME in that order, and only
      ORG_NAME can end the conversation. */
  function Successor(s: ConvState): (n: Option<ConvState>)
    ensures n.None? <==> s == OrgName
  {
    match s
    case FirstName => Some(Surname)
    case Surname => Some(OrgChoice)
    case OrgChoice => Some(OrgName)
    case OrgName => None
  }

  /** Where a user stands in the onboarding conversation: None outside it. */
  class Conversation {
    var state: Option<ConvState>

    constructor ()
      ensures state == None
    {
      state := None;
    }
  }

  /** One plain-text message inside the conversation: the handler registered for the current state
      runs, and the conversation records its answer. Every step either stays in its state or moves
      to the successor state (END after ORG_NAME). */
  method ConversationStep(conv: Conversation, data: UserData, db: Database, sess: Sessions, cache: RoleCache,
                          sender: Sender, text: string)
    returns (next: Next, menu: Option<seq<Button>>)
    requires conv.state.Some?
    requires db.Valid()
    modifies conv, data, db, sess, cache
    ensures db.Valid()
    ensures db.updates == old(db.updates) && db.visits == old(db.visits) && db.clock == old(db.clock)
    ensures conv.state == AfterStep(old(conv.state), next)
    ensures conv.state == old(conv.state) || conv.state == Successor(old(conv.state).value)
    ensures old(conv.state) != Some(OrgName) ==> unchanged(db, sess, cache) && menu.None?
    ensures old(conv.state) == Some(FirstName) ==> next == Goto(Surname) && data.firstName == Some(Strip(text))
    ensures old(conv.state) == Some(Surname) ==> next == Goto(OrgChoice) && data.surname == Some(Strip(text))
    ensures old(conv.state) == Some(OrgChoice) && !IsBlank(text) ==> data.choice == ChoiceWord(text)
    ensures old(conv.state) == Some(OrgName) ==>
              && (next == End <==> OrgNameCompletes(old(data.choice), old(db.organizations), text))
              && (next == Stay <==> OrgNameRaises(old(data.choice), old(db.organizations), text))
              && Tables(db.organizations, db.users)
                 == OrgNameEffect(old(data.choice), Tables(old(db.organizations), old(db.users)), sender,
                                  old(data.firstName), old(data.surname), text).tables
    ensures old(conv.state) == Some(OrgName) && old(data.choice) == Some("join") ==>
              && conv.state == Some(OrgName) && menu.None?
              && db.organizations == old(db.organizations) && db.users == old(db.users)
  {
    menu := None;
    var current := conv.state.value;
    if current == FirstName {
      next := HandleFirstName(data, text);
    } else if current == Surname {
      next := HandleSurname(data, text);
    } else if current == OrgChoice {
      next := HandleOrgChoice(data, text);
    } else {
      next, menu := OrgNameWrapper(data, db, sess, cache, sender, text);
    }
    conv.state := AfterStep(conv.state, next);
  }
}
