/** exec_report_onboarding.py: the onboarding conversation. Its handlers fill in the per-user
    context.user_data, write the organizations and users tables, and return the next state of
    the ConversationHandler. */
module Onboarding {
  import opened PyStr
  import opened Store
  import opened Roles

  /** The conversation states ORG_CHOICE, ORG_NAME, FIRST_NAME, SURNAME = range(4). */
  datatype ConvState = OrgChoice | OrgName | FirstName | Surname

  /** What a handler hands back to the ConversationHandler: a state to go to, END, or nothing
      because the handler raised, which leaves the conversation in the state it was in. */
  datatype Next = Goto(state: ConvState) | End | Stay

  /** The two strings org_name returns, and OrgNameRaised when it raises instead of returning. */
  datatype OrgNameResult = RetryOrgName | OnboardingComplete | OrgNameRaised

  /** The author of a message: from_user.id and from_user.username (which Telegram may omit). */
  datatype Sender = Sender(id: UserId, username: Option<string>)

  /** The keys of context.user_data that the conversation writes; None where a key is absent. */
  class UserData {
    var firstName: Option<string>
    var surname: Option<string>
    var choice: Option<string>

    /** A user_data dict nobody has written to yet. */
    constructor ()
      ensures firstName == None && surname == None && choice == None
    {
      firstName, surname, choice := None, None, None;
    }
  }

  // ---------------------------------------------------------------------------
  // start, first_name, surname

  /** start: ask for the first name. */
  method Start() returns (next: Next)
    ensures next == Goto(FirstName)
  {
    next := Goto(FirstName);
  }

  /** first_name: keep the trimmed text and ask for the surname; no table is written. */
  method HandleFirstName(data: UserData, text: string) returns (next: Next)
    modifies data
    ensures data.firstName == Some(Strip(text))
    ensures data.surname == old(data.surname) && data.choice == old(data.choice)
    ensures next == Goto(Surname)
  {
    data.firstName := Some(Strip(text));
    next := Goto(Surname);
  }

  /** surname: keep the trimmed text and offer the Join / Create keyboard; no table is written. */
  method HandleSurname(data: UserData, text: string) returns (next: Next)
    modifies data
    ensures data.surname == Some(Strip(text))
    ensures data.firstName == old(data.firstName) && data.choice == old(data.choice)
    ensures next == Goto(OrgChoice)
  {
    data.surname := Some(Strip(text));
    next := Goto(OrgChoice);
  }

  // ---------------------------------------------------------------------------
  // org_choice

  /** The value org_choice stores under "choice": choice.lower().split()[0] of the stripped text,
      None where split() finds no word and indexing it raises IndexError. */
  function ChoiceWord(text: string): (w: Option<string>)
    ensures w.None? <==> IsBlank(text)
    ensures w.Some? ==> w.value != [] && forall k :: 0 <= k < |w.value| ==> !IsSpace(w.value[k])
  {
    var t := Strip(text);
    LowerKeepsBlank(t);
    StripBlank(text);
    FirstWord(Lower(t))
  }

  /** Lower-casing turns no character into white space and no white space into anything else. */
  lemma LowerKeepsBlank(s: string)
    ensures IsBlank(Lower(s)) <==> IsBlank(s)
  {
    forall i | 0 <= i < |s|
      ensures IsSpace(Lower(s)[i]) <==> IsSpace(s[i])
    {
      LowerCharSpace(s[i]);
    }
  }

  /** For a text with no surrounding space whose first white space is at n, the stored choice is
      the lower-cased first n characters. */
  lemma ChoiceWordUpTo(text: string, n: nat)
    requires 0 < n < |text| && !IsSpace(text[|text| - 1])
    requires IsSpace(text[n]) && forall k :: 0 <= k < n ==> !IsSpace(text[k])
    ensures ChoiceWord(text) == Some(Lower(text[..n]))
  {
    StripKeeps(text);
    var low := Lower(text);
    forall k | 0 <= k <= n
      ensures IsSpace(low[k]) <==> IsSpace(text[k])
    {
      LowerCharSpace(text[k]);
    }
    FirstWordUpTo(low, n);
    assert low[..n] == Lower(text[..n]);
  }

  /** A label made of a word, a space and a remainder that ends in a non-space stores the
      lower-cased word as choice. */
  lemma LabelLayout(text: string, head: string, tail: string)
    requires text == head + " " + tail
    requires head != [] && tail != [] && !IsSpace(tail[|tail| - 1])
    requires forall k :: 0 <= k < |head| ==> !IsSpace(head[k])
    ensures ChoiceWord(text) == Some(Lower(head))
  {
    var n := |head|;
    assert text[..n] == head && text[n] == ' ' && text[|text| - 1] == tail[|tail| - 1];
    assert forall k :: 0 <= k < n ==> text[k] == head[k];
    ChoiceWordUpTo(text, n);
  }

  /** The first words of the two ORG_CHOICE labels, lower-cased. */
  lemma LowerWords()
    ensures Lower("Join") == "join" && Lower("Create") == "create"
  {
    LowerOfChars("Join", "join");
    LowerOfChars("Create", "create");
  }

  /** The "Join Organization" button stores "join" at ORG_CHOICE. */
  lemma JoinButton(button: string)
    requires button == "Join Organization"
    ensures ChoiceWord(button) == Some("join")
  {
    LabelLayout(button, "Join", "Organization");
    LowerWords();
  }

  /** Pressed again at ORG_NAME (where the "already exists" reply offers it), the "Join
      Organization" button is no follow-up, so it is read as an organization name. */
  lemma JoinButtonIsName(button: string)
    requires button == "Join Organization"
    ensures MetaCommand(Strip(button)).None?
  {
    StripKeeps(button);
    var lowered := Lower(button);
    assert lowered[0] == 'j' && lowered[5] == 'o';
    DiffersAt(lowered, "join existing", 5);
    DiffersAt(lowered, "create new", 0);
    DiffersAt(lowered, "try again", 0);
  }

  /** The "Create Organization" button stores "create" at ORG_CHOICE. */
  lemma CreateButton(button: string)
    requires button == "Create Organization"
    ensures ChoiceWord(button) == Some("create")
  {
    LabelLayout(button, "Create", "Organization");
    LowerWords();
  }

  /** At ORG_NAME the "Create Organization" button too is read as an organization name, so after a
      name clash pressing it tries to create "Create Organization". */
  lemma CreateButtonIsName(button: string)
    requires button == "Create Organization"
    ensures MetaCommand(Strip(button)).None?
  {
    StripKeeps(button);
    var lowered := Lower(button);
    assert lowered[0] == 'c' && lowered[7] == 'o';
    DiffersAt(lowered, "join existing", 0);
    DiffersAt(lowered, "create new", 7);
    DiffersAt(lowered, "try again", 0);
  }

  /** org_choice: store the first lower-cased word as "choice", then move to ORG_NAME only for the
      exact labels "Join Organization" and "Create Organization". Blank input raises before either. */
  method HandleOrgChoice(data: UserData, text: string) returns (next: Next)
    modifies data
    ensures data.firstName == old(data.firstName) && data.surname == old(data.surname)
    ensures IsBlank(text) ==> next == Stay && data.choice == old(data.choice)
    ensures !IsBlank(text) ==> data.choice == ChoiceWord(text)
    ensures !IsBlank(text) ==>
              (next == Goto(OrgName) <==> Strip(text) == "Join Organization" || Strip(text) == "Create Organization")
    ensures !IsBlank(text) ==> next == Goto(OrgName) || next == Goto(OrgChoice)
  {
    var choice := Strip(text);
    var word := ChoiceWord(text);
    if word.None? {
      return Stay;
    }
    data.choice := word;
    if choice == "Join Organization" {
      next := Goto(OrgName);
    } else if choice == "Create Organization" {
      next := Goto(OrgName);
    } else {
      next := Goto(OrgChoice);
    }
  }

  // ---------------------------------------------------------------------------
  // org_name

  /** The follow-up replies org_name recognises before looking at the stored choice. */
  datatype Meta = JoinExisting | CreateNew | TryAgain

  /** Which follow-up, if any, the stripped text names by the prefix of its lower-case form;
      the prefixes are tried in the order join existing, create new, try again. */
  function MetaCommand(name: string): (m: Option<Meta>)
    ensures m.None? <==> !StartsWith(Lower(name), "join existing") && !StartsWith(Lower(name), "create new")
                          && !StartsWith(Lower(name), "try again")
    ensures m == Some(JoinExisting) <==> StartsWith(Lower(name), "join existing")
    ensures m == Some(CreateNew) ==> StartsWith(Lower(name), "create new")
    ensures m == Some(TryAgain) ==> StartsWith(Lower(name), "try again")
  {
    var low := Lower(name);
    if StartsWith(low, "join existing") then Some(JoinExisting)
    else if StartsWith(low, "create new") then Some(CreateNew)
    else if StartsWith(low, "try again") then Some(TryAgain)
    else None
  }

  /** The "Try Again" button of the "not found" reply is a follow-up that keeps the choice. */
  lemma TryAgainButton(button: string)
    requires button == "Try Again"
    ensures MetaCommand(Strip(button)) == Some(TryAgain)
  {
    StripKeeps(button);
    LowerStartsWith(button, "try again");
    DiffersAt(Lower(button), "join existing", 0);
    DiffersAt(Lower(button), "create new", 0);
  }

  /** The "Create New Organization" button of the "not found" reply switches the choice to create. */
  lemma CreateNewButton(button: string)
    requires button == "Create New Organization"
    ensures MetaCommand(Strip(button)) == Some(CreateNew)
  {
    StripKeeps(button);
    LowerStartsWith(button, "create new");
    DiffersAt(Lower(button), "join existing", 0);
  }

  /** A string that differs from p at a position inside both does not start with p. */
  lemma DiffersAt(s: string, p: string, i: nat)
    requires i < |s| && i < |p| && s[i] != p[i]
    ensures !StartsWith(s, p)
  {
  }

  /** The upsert of the "create" branch: the caller becomes executive and admin of org. */
  function CreateUpsert(users: map<UserId, UserRow>, uid: UserId, username: string, first: string, sur: string, org: string)
    : (r: map<UserId, UserRow>)
    ensures r.Keys == users.Keys + {uid}
    ensures forall u :: u in users && u != uid ==> r[u] == users[u]
    ensures r[uid].org == org && r[uid].username == username && r[uid].firstName == first && r[uid].surname == sur
    ensures var roles := GetUserRoles(LookupUser(r, uid)); roles.admin && roles.executive && !roles.user && !roles.none
  {
    users[uid := UserRow(username, first, sur, org, true, true)]
  }

  /** The upsert the "join" branch intends: a new row is neither executive nor admin (the column
      defaults); an existing row keeps both flags and takes the new org and names. */
  function JoinUpsert(users: map<UserId, UserRow>, uid: UserId, username: string, first: string, sur: string, org: string)
    : (r: map<UserId, UserRow>)
    ensures r.Keys == users.Keys + {uid}
    ensures forall u :: u in users && u != uid ==> r[u] == users[u]
    ensures r[uid].org == org && r[uid].username == username && r[uid].firstName == first && r[uid].surname == sur
    ensures uid in users ==> r[uid].admin == users[uid].admin && r[uid].executive == users[uid].executive
    ensures uid !in users ==> GetUserRoles(LookupUser(r, uid)).user
  {
    if uid in users then
      users[uid := users[uid].(username := username, org := org, firstName := first, surname := sur)]
    else
      users[uid := UserRow(username, first, sur, org, false, false)]
  }

  /** Joining an organization never changes a user's roles: a creator who later joins another
      organization is still its admin and executive. */
  lemma {:induction false} JoinKeepsRoles(users: map<UserId, UserRow>, uid: UserId, username: string, first: string, sur: string, org: string)
    requires uid in users
    ensures GetUserRoles(LookupUser(JoinUpsert(users, uid, username, first, sur, org), uid))
         == GetUserRoles(LookupUser(users, uid))
  {
    var r := JoinUpsert(users, uid, username, first, sur, org);
    assert r[uid].admin == users[uid].admin && r[uid].executive == users[uid].executive;
  }

  /** The columns of the users table. */
  const UsersColumns: set<string> := {"user_id", "username", "first_name", "surname", "org", "executive", "admin"}

  /** The column list of the "join" INSERT as written, which names last_name. */
  const JoinInsertColumns: seq<string> := ["user_id", "username", "org", "first_name", "last_name"]

  /** The "join" upsert as written: SQLite refuses a statement that names a column the table does
      not have, so it yields a table only when every listed column exists. */
  function JoinUpsertAsWritten(users: map<UserId, UserRow>, uid: UserId, username: string, first: string, sur: string, org: string)
    : (r: Option<map<UserId, UserRow>>)
    ensures r.Some? ==> r.value == JoinUpsert(users, uid, username, first, sur, org)
    ensures r.Some? <==> forall i :: 0 <= i < |JoinInsertColumns| ==> JoinInsertColumns[i] in UsersColumns
  {
    if forall i :: 0 <= i < |JoinInsertColumns| ==> JoinInsertColumns[i] in UsersColumns then
      Some(JoinUpsert(users, uid, username, first, sur, org))
    else None
  }

  /** As written, the join upsert raises for every input: last_name is not a column of users. */
  lemma JoinAsWrittenRaises(users: map<UserId, UserRow>, uid: UserId, username: string, first: string, sur: string, org: string)
    ensures JoinUpsertAsWritten(users, uid, username, first, sur, org).None?
  {
    assert JoinInsertColumns[4] == "last_name";
  }

  /** The two tables org_name writes. */
  datatype Tables = Tables(organizations: set<string>, users: map<UserId, UserRow>)

  /** What org_name returns, the tables it leaves and the "choice" it leaves in user_data. */
  datatype OrgNameOutcome = OrgNameOutcome(result: OrgNameResult, tables: Tables, choice: Option<string>)

  /** Whether org_name registers the user: the text is no follow-up, the stored choice is not
      "join" (whose upsert raises), and not a "create" of a taken name. */
  predicate OrgNameCompletes(choice: Option<string>, organizations: set<string>, text: string) {
    var name := Strip(text);
    && MetaCommand(name).None?
    && choice != Some("join")
    && !(choice == Some("create") && name in organizations)
  }

  /** Whether org_name raises: a "join" of an existing organization reaches the upsert as written. */
  predicate OrgNameRaises(choice: Option<string>, organizations: set<string>, text: string) {
    var name := Strip(text);
    && MetaCommand(name).None?
    && choice == Some("join")
    && name in organizations
  }

  /** org_name on values: follow-ups redirect "choice" and ask again; otherwise "create" registers a
      new organization and makes the caller its admin and executive, "join" of a known organization
      raises without writing, and any other stored choice completes without writing. */
  function OrgNameEffect(choice: Option<string>, t: Tables, sender: Sender, first: Option<string>,
                         sur: Option<string>, text: string): (o: OrgNameOutcome)
    ensures o.result == OnboardingComplete <==> OrgNameCompletes(choice, t.organizations, text)
    ensures o.result == OrgNameRaised <==> OrgNameRaises(choice, t.organizations, text)
    ensures o.result != OnboardingComplete ==> o.tables == t
    ensures t.organizations <= o.tables.organizations && |o.tables.organizations - t.organizations| <= 1
    ensures MetaCommand(Strip(text)).Some? ==>
              o.choice == match MetaCommand(Strip(text)).value
                          case JoinExisting => Some("join")
                          case CreateNew => Some("create")
                          case TryAgain => choice
    ensures MetaCommand(Strip(text)).None? ==> o.choice == choice
    ensures OrgNameCompletes(choice, t.organizations, text) && choice == Some("create") ==>
              && o.tables.organizations == t.organizations + {Strip(text)}
              && Strip(text) !in t.organizations
              && o.tables.users == CreateUpsert(t.users, sender.id, sender.username.GetOr(""),
                                                first.GetOr(""), sur.GetOr(""), Strip(text))
    ensures choice == Some("join") ==> o.tables == t
    ensures OrgNameCompletes(choice, t.organizations, text) && choice != Some("create") ==> o.tables == t
  {
    var name := Strip(text);
    match MetaCommand(name)
    case Some(JoinExisting) => OrgNameOutcome(RetryOrgName, t, Some("join"))
    case Some(CreateNew) => OrgNameOutcome(RetryOrgName, t, Some("create"))
    case Some(TryAgain) => OrgNameOutcome(RetryOrgName, t, choice)
    case None =>
      RegisterOrg(choice, t, sender, first.GetOr(""), sur.GetOr(""), name)
  }

  /** The writing part of org_name, for a name that is no follow-up: "create" inserts the
      organization unless the name is taken; "join" looks the name up and then runs the upsert as
      written, which raises; anything else writes nothing. */
  function RegisterOrg(choice: Option<string>, t: Tables, sender: Sender, first: string, sur: string,
                       name: string): (o: OrgNameOutcome)
    ensures o.choice == choice
    ensures o.result == OnboardingComplete <==>
              choice != Some("join") && !(choice == Some("create") && name in t.organizations)
    ensures o.result == OrgNameRaised <==> choice == Some("join") && name in t.organizations
    ensures o.result != OnboardingComplete ==> o.tables == t
    ensures t.organizations <= o.tables.organizations && |o.tables.organizations - t.organizations| <= 1
    ensures o.result == OnboardingComplete && choice == Some("create") ==>
              && o.tables.organizations == t.organizations + {name}
              && o.tables.users == CreateUpsert(t.users, sender.id, sender.username.GetOr(""), first, sur, name)
    ensures choice != Some("create") ==> o.tables == t
  {
    assert name !in t.organizations ==> t.organizations + {name} - t.organizations == {name};
    if choice == Some("create") then
      if name in t.organizations then OrgNameOutcome(RetryOrgName, t, choice)
      else OrgNameOutcome(OnboardingComplete,
                          Tables(t.organizations + {name},
                                 CreateUpsert(t.users, sender.id, sender.username.GetOr(""), first, sur, name)),
                          choice)
    else if choice == Some("join") then
      if name !in t.organizations then OrgNameOutcome(RetryOrgName, t, choice)
      else
        JoinAsWrittenRaises(t.users, sender.id, sender.username.GetOr(""), first, sur, name);
        match JoinUpsertAsWritten(t.users, sender.id, sender.username.GetOr(""), first, sur, name)
        case None => OrgNameOutcome(OrgNameRaised, t, choice)
        case Some(users) => OrgNameOutcome(OnboardingComplete, Tables(t.organizations, users), choice)
    else OrgNameOutcome(OnboardingComplete, t, choice)
  }

  /** The writing part of org_name with the join upsert corrected to name the surname column: a
      "join" of a known organization then registers the caller under it, keeping their roles; every
      other case is as written. */
  function RegisterOrgIntended(choice: Option<string>, t: Tables, sender: Sender, first: string, sur: string,
                               name: string): (o: OrgNameOutcome)
    ensures choice == Some("join") && name in t.organizations ==>
              && o.result == OnboardingComplete && o.choice == choice
              && o.tables.organizations == t.organizations
              && o.tables.users == JoinUpsert(t.users, sender.id, sender.username.GetOr(""), first, sur, name)
              && o.tables.users[sender.id].org == name
    ensures !(choice == Some("join") && name in t.organizations) ==>
              o == RegisterOrg(choice, t, sender, first, sur, name)
  {
    if choice == Some("join") && name in t.organizations then
      OrgNameOutcome(OnboardingComplete,
                     Tables(t.organizations, JoinUpsert(t.users, sender.id, sender.username.GetOr(""), first, sur, name)),
                     choice)
    else RegisterOrg(choice, t, sender, first, sur, name)
  }

  /** After a clash, the "already exists" keyboard offers Join / Create, but with "create" stored
      pressing "Join Organization" asks to create an organization named "Join Organization". */
  lemma ClashKeyboardCreatesButtonName(t: Tables, sender: Sender, first: Option<string>, sur: Option<string>, button: string)
    requires button == "Join Organization" && button !in t.organizations
    ensures var o := OrgNameEffect(Some("create"), t, sender, first, sur, button);
            o.result == OnboardingComplete && o.tables.organizations == t.organizations + {button}
  {
    JoinButtonIsName(button);
    StripKeeps(button);
  }

  /** org_name: the result, the tables and the "choice" it leaves are those of OrgNameEffect; it
      never touches the updates or visits tables nor the names collected earlier. */
  method HandleOrgName(data: UserData, db: Database, sender: Sender, text: string) returns (r: OrgNameResult)
    requires db.Valid()
    modifies data, db
    ensures db.Valid()
    ensures db.updates == old(db.updates) && db.visits == old(db.visits) && db.clock == old(db.clock)
    ensures data.firstName == old(data.firstName) && data.surname == old(data.surname)
    ensures OrgNameOutcome(r, Tables(db.organizations, db.users), data.choice)
         == OrgNameEffect(old(data.choice), Tables(old(db.organizations), old(db.users)), sender,
                          old(data.firstName), old(data.surname), text)
  {
    var name := Strip(text);
    var meta := MetaCommand(name);
    if meta == Some(JoinExisting) {
      data.choice := Some("join");
      return RetryOrgName;
    } else if meta == Some(CreateNew) {
      data.choice := Some("create");
      return RetryOrgName;
    } else if meta == Some(TryAgain) {
      return RetryOrgName;
    }
    r := StoreOrg(db, data.choice, sender, data.firstName.GetOr(""), data.surname.GetOr(""), name);
  }

  /** The database writes of org_name once the text is known to be a name. */
  method StoreOrg(db: Database, choice: Option<string>, sender: Sender, first: string, sur: string, name: string)
    returns (r: OrgNameResult)
    requires db.Valid()
    modifies db
    ensures db.Valid()
    ensures db.updates == old(db.updates) && db.visits == old(db.visits) && db.clock == old(db.clock)
    ensures OrgNameOutcome(r, Tables(db.organizations, db.users), choice)
         == RegisterOrg(choice, Tables(old(db.organizations), old(db.users)), sender, first, sur, name)
  {
    var username := sender.username.GetOr("");
    if choice == Some("create") {
      if name in db.organizations {
        // INSERT INTO organizations fails on the UNIQUE name: IntegrityError
        return RetryOrgName;
      }
      db.organizations := db.organizations + {name};
      db.users := CreateUpsert(db.users, sender.id, username, first, sur, name);
    } else if choice == Some("join") {
      if name !in db.organizations {
        return RetryOrgName;
      }
      var joined := JoinUpsertAsWritten(db.users, sender.id, username, first, sur, name);
      if joined.None? {
        // sqlite3.OperationalError: the users table has no column last_name
        return OrgNameRaised;
      }
      db.users := joined.value;
    }
    r := OnboardingComplete;
  }

  /** cancel: end the conversation; no table is written. */
  method Cancel() returns (next: Next)
    ensures next == End
  {
    next := End;
  }
}
