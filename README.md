# Executive-report bot: onboarding, roles, and the update pipeline

This project is a Dafny model of the decision logic of a Telegram bot. Members of an organization use the bot to send work updates as text, voice notes or photos. A summarizer turns each update into a structured report, and executives read the reports back. The model covers three parts of the bot:

- **Onboarding conversation** (`exec_report_onboarding.py`, with the wrappers in `exec_report_telegram_bot.py`).
  - It is a ConversationHandler state machine: FIRST_NAME → SURNAME → ORG_CHOICE → ORG_NAME → END.
  - Its handlers fill in the per-user `context.user_data` (class `Onboarding.UserData`).
  - They write the `organizations` and `users` tables.
  - ORG_NAME loops back to itself on a follow-up command, a name clash, or an unknown organization.
- **Roles and developer commands** (`exec_report_dev.py`).
  - `get_user_roles` derives four flags from a user's row.
  - Lookups go through an `lru_cache` memo (class `Roles.RoleCache`).
  - `/promote_user` and `/demote_user` flip one flag and empty the memo.
  - `/resetonboarding` deletes a user and their updates.
- **Update pipeline** (`exec_report_telegram_bot.py`).
  - The process-wide `user_state` map (class `BotSession.Sessions`) gates which messages count as updates.
  - The role-based menus.
  - Text, photo and audio submission.
  - Retrieval of the newest updates.
  - The admin-only purge, with its image-deletion loop.

The SQLite tables are the fields of one `Store.Database` object:
- `organizations`, a set of unique names;
- `users`, a map from user id to row;
- `updates` and `visits`, sequences in insertion order.

The wall clock is a counter, `Database.clock`. Every timestamped insert advances it, so update timestamps strictly increase (`Database.Valid`). The files in the working directory are the set `Store.Disk.files`.

The collaborators the bot calls are parameters of the operations that use them:

| collaborator | parameter |
|---|---|
| the Gemini summarizer | `structure: string -> Option<string>`; `None` means the call raised |
| the AssemblyAI transcriber | `transcript: Option<string>`; `None` is the `None` it returns on any error |
| audio and photo downloads | `downloadOk`, `photoOk`; `partial` says whether a failed audio download left part of the file |
| `os.remove` failures | `stuck`, the set of paths that cannot be removed |
| database faults during a purge | `fault` |
| the developer allow-list `DEV_USER_IDS` | `devIds` |

A handler that raises is modelled as returning `Stay`, because the ConversationHandler then keeps its state.

The model follows the code. Where the code differs from what an idealised design of the bot would do, the model keeps the code's behaviour:

- **Roles are global.** Roles are per user, not per organization: there is one `org`, one `admin` and one `executive` column per user.
- **Flags can overlap.** `admin` and `executive` can both be true (`Roles.GetUserRoles` copies both stored flags as they are).
- **Nothing is scoped to an organization.** `get_updates` and the purge have no `WHERE` clause and act on every organization's updates.
- **The role memo goes stale.**
  - Only promote and demote empty it.
  - Onboarding does not, so a stale "not registered" entry shows a new creator the non-executive menu (`BotEntry.CreatorMenuFromStaleCache`).
  - Reset does not either, so a reset admin still passes admin checks (`Roles.ResetLeavesStaleRoles`).
- **A failed transcription leaves the session waiting.** The session entry stays "awaiting_update" (`BotSubmit.HandleAudio`).
- **`user_data` is never cleared.** `cancel` does not clear it either.
- **The ORG_NAME keyboards are read as names.** Every ORG_NAME message is read as an organization name unless it starts with one of the three follow-up prefixes. So after a name clash, the "Join Organization" and "Create Organization" buttons offered by the "already exists" reply are taken as names (`Onboarding.ClashKeyboardCreatesButtonName`).
- **A failed `DELETE` still deletes images.** If the purge's `DELETE` raises after its `SELECT`, the image files are still deleted and every session is still cleared, although the rows remain. The handler then fails on the unbound `deleted_count` (`BotPurge.Purge`).
- **A failed commit still reports a clear.** If the purge's `commit` raises after the `DELETE`, `deleted_count` is already bound and closing the connection rolls the `DELETE` back. Every row remains, yet the image files they name are deleted, the sessions are cleared, and the reply says all of them were cleared (`BotPurge.HandleConfirmation`).
- **Nobody can join an organization.** The join upsert names a column `users` does not have, so `org_name` raises for every "join" of an existing organization. The conversation stays at ORG_NAME, no users row is written and no menu is shown (`Onboarding.RegisterOrg`, `BotEntry.ConversationStep`). The corrected join is `Onboarding.RegisterOrgIntended`.

## Model

| member | source | states |
|---|---|---|
| PyStr.Strip | exec_report_onboarding.py:248 | `str.strip()`: never longer than its input; empty exactly for blank input; otherwise neither end is white space |
| PyStr.FirstWord | exec_report_onboarding.py:267 | `split()[0]`: absent exactly for blank input; otherwise a non-empty run without white space that starts the stripped text and ends at white space or at its end |
| PyStr.FirstWordUpTo | exec_report_onboarding.py:267 | when the text starts with n non-space characters followed by white space, `split()[0]` is exactly those n characters |
| PyStr.Lower | exec_report_onboarding.py:267 | `lower()`: same length, each character lowered |
| PyStr.IntToString | exec_report_telegram_bot.py:763 | `str(int)`: non-empty, made of digits and a minus sign |
| PyStr.ParseInt | exec_report_dev.py:60 | `int(str)` refuses blank input |
| PyStr.ParseIntRoundTrip | exec_report_dev.py:60 | `int(str(n)) == n` for every integer, so any user id typed back is accepted |
| PyStr.ParseNatString | exec_report_dev.py:60 | `int(str(m)) == m` for every non-negative m |
| PyStr.ParseNegatedNatString | exec_report_dev.py:60 | `int("-" + str(m)) == -m` for every non-negative m |
| PyStr.IntToStringInjective | exec_report_telegram_bot.py:763 | different integers print differently |
| PyStr.RFind | exec_report_telegram_bot.py:278-281 | the last occurrence of a character, -1 when there is none |
| PyStr.Ext | exec_report_telegram_bot.py:278-281 | `os.path.splitext(...)[1]`: a suffix of the name that is empty or starts with the dot and holds no other dot or slash |
| PyStr.ExtOfDottedSuffix | exec_report_telegram_bot.py:278-281 | a name without `/` that does not start with a dot and ends in a dotted suffix with no other dot has exactly that suffix as its extension |
| Store.Database.constructor | exec_report_telegram_bot.py:82-135 | `init_db` on an empty file: all tables empty, and the timestamp invariant holds |
| Store.LookupUser | exec_report_telegram_bot.py:251-252 | the row exists exactly when the id is a key, and is that key's row |
| Store.ByAuthor | exec_report_dev.py:167 | one author's updates: exactly the rows with that user id |
| Store.WithoutAuthor | exec_report_dev.py:167 | `DELETE FROM updates WHERE user_id=?`: exactly the rows of other authors survive |
| Store.WithoutAuthorKeepsOthers | exec_report_dev.py:163-167 | after deleting one user's updates, every other author's updates are exactly as before, in order, and the deleted user has none |
| Store.WithoutAuthorChronological | exec_report_dev.py:167 | deleting rows keeps the survivors in timestamp order, below the clock |
| Store.AppendChronological | exec_report_telegram_bot.py:318-324 | a row stamped with the current clock keeps the table in timestamp order |
| Roles.GetUserRoles | exec_report_dev.py:15-34 | at least one flag is true; `none` exactly when there is no row, and then no other flag; `user` exactly when a row has neither flag; admin and executive mirror the row |
| Roles.CachedRoles | exec_report_dev.py:14 | a memo miss answers the flags of the current row |
| Roles.RoleCache.Get | exec_report_dev.py:14-34 | a hit returns the memoised flags; a miss reads the table and memoises the answer |
| Roles.RoleCache.ClearUserRolesCache | exec_report_dev.py:36-44 | the whole memo is emptied whatever id is passed |
| Roles.CoherentReadsTable | exec_report_dev.py:14 | through a memo that agrees with the table, a lookup reads the table and keeps the memo in agreement |
| Roles.ParseRole | exec_report_dev.py:69-73 | only "admin" and "executive" name a flag |
| Roles.RoleArgs | exec_report_dev.py:59-64 | fails exactly when there are fewer than two arguments or the first is not an integer; otherwise gives the id and the lower-cased role |
| Roles.SetRoleFlag | exec_report_dev.py:69-72 | the UPDATE sets only the named flag of the target; the other flag, the other columns and every other user are unchanged; no row is created |
| Roles.SetRoleFlagLastWins | exec_report_dev.py:114-117 | a demote after a promote of the same flag leaves it as if only the demote ran |
| Roles.SetRoleFlagIdempotent | exec_report_dev.py:69-72 | promoting or demoting twice is the same as once |
| Roles.FullName | exec_report_dev.py:87-90 | a missing target is named "User <id>" |
| Roles.ChangeRole | exec_report_dev.py:48-92 | callers who are not admin, executive or developer are refused with no change; bad arguments and unknown roles are answered with no table change; otherwise exactly the one flag is written and the memo is emptied |
| Roles.PromoteUser | exec_report_dev.py:48-92 | reaching the UPDATE sets the named flag to 1 and empties the memo; otherwise no user changes, the reply names the refusal (not allowed, usage, bad role) and the memo only records the caller |
| Roles.DemoteUser | exec_report_dev.py:95-137 | reaching the UPDATE sets the named flag to 0 and empties the memo; otherwise no user changes, the reply names the refusal (not allowed, usage, bad role) and the memo only records the caller |
| Roles.ResetOnboarding | exec_report_dev.py:140-176 | only developers; a missing or non-integer id changes nothing; otherwise the user's row and all their updates are deleted, other users, organizations and visits are untouched, and the reply says whether a row existed |
| Roles.ResetLeavesStaleRoles | exec_report_dev.py:140-176 | a memoised admin still reads as admin after reset, though the table says "not registered" |
| Onboarding.UserData.constructor | exec_report_onboarding.py:293-295 | a fresh `user_data` holds none of the three keys |
| Onboarding.Start | exec_report_onboarding.py:238-244 | `start` goes to FIRST_NAME |
| Onboarding.HandleFirstName | exec_report_onboarding.py:247-250 | stores the stripped first name, leaves the other keys, goes to SURNAME |
| Onboarding.HandleSurname | exec_report_onboarding.py:253-261 | stores the stripped surname, leaves the other keys, goes to ORG_CHOICE |
| Onboarding.ChoiceWord | exec_report_onboarding.py:266-267 | the stored choice: absent (IndexError) exactly for blank input, otherwise a non-empty word without white space |
| Onboarding.ChoiceWordUpTo | exec_report_onboarding.py:266-267 | when the text starts with n non-space characters followed by white space, and does not end in white space, the stored choice is exactly those n characters lowered |
| Onboarding.JoinButton | exec_report_onboarding.py:266-267 | the "Join Organization" button stores "join" |
| Onboarding.JoinButtonIsName | exec_report_onboarding.py:302-328 | at ORG_NAME, the "Join Organization" text is no follow-up command, so it is read as an organization name |
| Onboarding.CreateButton | exec_report_onboarding.py:266-267 | the "Create Organization" button stores "create" |
| Onboarding.CreateButtonIsName | exec_report_onboarding.py:302-328 | at ORG_NAME, the "Create Organization" text is no follow-up command, so it is read as an organization name |
| Onboarding.HandleOrgChoice | exec_report_onboarding.py:265-286 | blank input raises and keeps the state; otherwise stores the first lower-cased word, and goes to ORG_NAME exactly for the two exact labels, else stays at ORG_CHOICE |
| Onboarding.MetaCommand | exec_report_onboarding.py:302-328 | the follow-ups by prefix of the lower-cased name, tried as join existing, then create new, then try again |
| Onboarding.TryAgainButton | exec_report_onboarding.py:302-328 | the "Try Again" button of the not-found reply is the try-again follow-up |
| Onboarding.CreateNewButton | exec_report_onboarding.py:302-328 | the "Create New Organization" button is the create-new follow-up |
| Onboarding.CreateUpsert | exec_report_onboarding.py:350-360 | the creator's row gets the organization and names and is admin and executive; every other user is unchanged |
| Onboarding.JoinUpsert | exec_report_onboarding.py:379-387 | the intended join upsert: org and names written; an existing row keeps both flags; a new row is a plain user; every other user is unchanged |
| Onboarding.JoinKeepsRoles | exec_report_onboarding.py:382-386 | joining never changes an existing user's roles |
| Onboarding.JoinUpsertAsWritten | exec_report_onboarding.py:379-387 | the statement as written succeeds only if every listed column exists, and then does what the intended upsert does |
| Onboarding.JoinAsWrittenRaises | exec_report_onboarding.py:380 | as written, the join upsert fails for every input |
| Onboarding.OrgNameEffect | exec_report_onboarding.py:289-392 | completes exactly when the text is no follow-up, the choice is not "join" and not "create" of a taken name; raises exactly for "join" of a known name; only completion writes; "join" never writes; follow-ups set or keep the choice; create adds exactly the new name and makes the caller admin and executive; at most one organization is ever added |
| Onboarding.RegisterOrg | exec_report_onboarding.py:330-392 | for a name that is no follow-up: the choice is kept; completes exactly unless the choice is "join" or "create" meets a taken name; raises exactly when "join" meets a known name, because the upsert as written fails; only completion writes; create adds exactly that name and writes the creator row; no other choice writes |
| Onboarding.RegisterOrgIntended | exec_report_onboarding.py:374-387 | with the join upsert corrected, a "join" of a known organization completes and writes the join row, which puts the caller in that organization; every other case is as written |
| Onboarding.ClashKeyboardCreatesButtonName | exec_report_onboarding.py:336-347 | after a clash, pressing "Join Organization" with "create" stored creates an organization with that name |
| Onboarding.HandleOrgName | exec_report_onboarding.py:289-392 | the result (including raising), tables and choice are those of OrgNameEffect; names, updates and visits are untouched |
| Onboarding.StoreOrg | exec_report_onboarding.py:330-392 | the result and tables are those RegisterOrg describes, with the join upsert run as written; updates, visits and the clock are untouched |
| Onboarding.Cancel | exec_report_onboarding.py:396-398 | ends the conversation and writes nothing |
| BotSession.Sessions.constructor | exec_report_telegram_bot.py:329 | `user_state` starts empty |
| BotSession.CallbackData | exec_report_telegram_bot.py:399-411 | every button carries non-empty callback data |
| BotSession.MainMenu | exec_report_telegram_bot.py:399-411 | three buttons: everyone gets last and recent; "send update" exactly for non-executives; "more options" exactly for executives |
| BotSession.MoreOptionsExecMenu | exec_report_telegram_bot.py:499-503 | starts with "send update" and ends with "main menu"; "clear updates" exactly for admins |
| BotSession.MoreOptionsMenu | exec_report_telegram_bot.py:356-373 | a keyboard only for executives; it starts with "send update", and offers "clear updates" exactly to admins |
| BotSession.SendUpdateReachable | exec_report_telegram_bot.py:399-411 | every user reaches "send update" in at most two presses; only admins are ever offered "clear updates" |
| BotSession.ShowMainMenu | exec_report_telegram_bot.py:383-424 | pops the caller's session entry and shows the menu of the memoised roles |
| BotSession.SendUpdate | exec_report_telegram_bot.py:531-557 | puts the caller in "awaiting_update" and changes nothing else |
| BotEntry.GetUserData | exec_report_telegram_bot.py:242-269 | returns the user's row; logs exactly one visit at the clock when there is one, none otherwise |
| BotEntry.StartWrapper | exec_report_telegram_bot.py:183-206 | a registered user gets END, exactly one visit and the main menu; anyone else goes to FIRST_NAME with nothing written |
| BotEntry.OrgNameWrapper | exec_report_telegram_bot.py:208-220 | tables and choice as OrgNameEffect; completion gives END and the main menu; a raising org_name keeps the state with no menu; a retry goes back to ORG_NAME with no menu |
| BotEntry.CreatorMenuFromStaleCache | exec_report_telegram_bot.py:208-220 | a memoised "not registered" survives creation, so the new admin and executive is shown the non-executive menu |
| BotEntry.AfterStep | exec_report_telegram_bot.py:950-956 | the recorded state follows a returned state, END leaves the conversation, and a raising handler keeps the state |
| BotEntry.Successor | exec_report_telegram_bot.py:950-954 | the states run in order, and only ORG_NAME has no successor |
| BotEntry.ConversationStep | exec_report_telegram_bot.py:950-956 | one message inside the conversation either keeps the state or moves to the next one; only ORG_NAME writes tables or shows a menu; it ends exactly when org_name completes and stays exactly when it raises; with "join" stored the conversation never leaves ORG_NAME and writes nothing |
| BotSubmit.ChooseText | exec_report_telegram_bot.py:846-851 | the text by priority: a non-empty override, else a non-empty caption, else the message text, else "" |
| BotSubmit.StructuredText | exec_report_telegram_bot.py:858 | blank text gets "[No text provided]", other text the summarizer's answer |
| BotSubmit.PairName | exec_report_telegram_bot.py:842 | the `f"{a}_{b}{suffix}"` file name: it starts with the first number and an underscore, and ends with the suffix |
| BotSubmit.PairNameInjective | exec_report_telegram_bot.py:842 | two such names with the same suffix are equal only for the same two numbers |
| BotSubmit.PhotoPath | exec_report_telegram_bot.py:842 | a photo's file name starts with the user id and an underscore |
| BotSubmit.PhotoPathInjective | exec_report_telegram_bot.py:842 | photos of different users, or taken at different times, never share a file |
| BotSubmit.TempAudioPath | exec_report_telegram_bot.py:763 | the temporary audio file name starts with "temp_audio_" |
| BotSubmit.TempAudioPathInjective | exec_report_telegram_bot.py:762-763 | different (user, message) pairs never share a temporary file |
| BotSubmit.TempAudioPathShape | exec_report_telegram_bot.py:763 | the temporary audio file name has no `/`, does not start with a dot, and ends in ".ogg" |
| BotSubmit.IsSupportedFile | exec_report_telegram_bot.py:278-281 | a supported name has a dot extension |
| BotSubmit.SupportedByExtension | exec_report_telegram_bot.py:278-281 | a name with no '/', not starting with a dot, that ends in a dot extension ext with no further dot is supported exactly when ext, lower-cased, is one of the six formats |
| BotSubmit.NoExtensionUnsupported | exec_report_telegram_bot.py:278-281 | a name without a dot is never supported |
| BotSubmit.TempAudioPathSupported | exec_report_telegram_bot.py:763 | the temporary audio file always passes the extension check against SUPPORTED_FORMATS (line 32) |
| BotSubmit.SaveUpdate | exec_report_telegram_bot.py:318-324 | appends exactly one row stamped with the clock and changes no other table |
| BotSubmit.CommitUpdate | exec_report_telegram_bot.py:860-876 | the save: exactly one row appended at the clock, the clock advanced, the other tables unchanged, the caller's session entry dropped and the main menu of the memoised roles shown |
| BotSubmit.HandleMessage | exec_report_telegram_bot.py:812-877 | ignored unless the sender awaits an update; unregistered senders, failed photo downloads, blank text without a photo and summarizer failures save nothing and leave the session; a save appends exactly one row (chosen text, the user's organization, summary or placeholder, photo path), pops the session and shows the menu |
| BotSubmit.AudioFileId | exec_report_telegram_bot.py:752-756 | the voice note's file id, else the audio file's |
| BotSubmit.HandleAudio | exec_report_telegram_bot.py:744-810 | no file id changes nothing; a failed download writes no table and leaves at most the partly written temporary file; after a download the temporary file is gone on every path unless its removal fails; a missing or blank transcription saves no row; a save carries the stripped transcript |
| BotRetrieval.Reverse | exec_report_telegram_bot.py:899 | `list.reverse()`: entry i is entry n-1-i |
| BotRetrieval.ReverseIsNewestFirst | exec_report_telegram_bot.py:895 | reading a timestamp-ordered table backwards is ORDER BY timestamp DESC |
| BotRetrieval.Take | exec_report_telegram_bot.py:895 | LIMIT: a prefix of length min(n, size) |
| BotRetrieval.Latest | exec_report_telegram_bot.py:893-899 | `ORDER BY timestamp DESC LIMIT ?` then `rows.reverse()`: min(limit, table size) rows; LatestIsSuffix shows they are the last rows of the table, oldest first |
| BotRetrieval.LatestIsSuffix | exec_report_telegram_bot.py:893-899 | the rows shown are exactly the last min(limit, size) rows of the table, oldest first |
| BotRetrieval.LatestShowsNewest | exec_report_telegram_bot.py:893-904 | at most limit rows; none exactly for an empty table (or limit 0); in timestamp order; newer than every row left out, across all organizations |
| BotRetrieval.LastUpdateAfterSave | exec_report_telegram_bot.py:506-507 | right after a save, "last update" shows exactly the saved row |
| BotRetrieval.ShownName | exec_report_telegram_bot.py:923 | a present username is printed as is |
| BotRetrieval.Render | exec_report_telegram_bot.py:920-935 | a photo is attached exactly when the path is non-empty and the file exists; the caption names the author and ends with the structured text |
| BotRetrieval.SendRows | exec_report_telegram_bot.py:907-915 | one message per row, in order |
| BotRetrieval.GetUpdates | exec_report_telegram_bot.py:880-918 | "no updates" exactly when nothing is shown, and then nothing changes; otherwise one card per shown row and the main menu |
| BotPurge.ClearUpdates | exec_report_telegram_bot.py:580-610 | only admins are asked to confirm, and only their own session entry is dropped; nothing is deleted |
| BotPurge.ImagePaths | exec_report_telegram_bot.py:633-634 | one selected path per row, in order |
| BotPurge.Sweep | exec_report_telegram_bot.py:646-654 | removed + failed never exceed the paths read, and files only disappear |
| BotPurge.SweepFiles | exec_report_telegram_bot.py:646-654 | the files left are exactly the old files minus the named, removable ones |
| BotPurge.SweepCount | exec_report_telegram_bot.py:646-654 | removed counts exactly the files that disappeared |
| BotPurge.SweepImages | exec_report_telegram_bot.py:646-654 | the loop leaves the disk and counters that Sweep describes |
| BotPurge.Purge | exec_report_telegram_bot.py:628-657 | deleted_count is bound exactly when the DELETE ran (no fault, or a failed commit), and is then the old size; only a faultless purge deletes the rows; the images are swept unless the connection or SELECT failed; every session is cleared unless the connection failed |
| BotPurge.HandleConfirmation | exec_report_telegram_bot.py:613-667 | non-admins and cancel get the menu with nothing deleted; a faultless confirm deletes every row, sweeps the images, empties every session and shows the menu; a failed commit gives the same reply and sweep but keeps every row; other faults crash the handler with the rows kept |
| BotPurge.PurgeCounts | exec_report_telegram_bot.py:646-654 | the counters never exceed the rows read, and a file no row names survives the purge |
| BotCallbacks.MoreOptions | exec_report_telegram_bot.py:356-373 | executives get the submenu, everyone else is refused; only the memo changes |
| BotCallbacks.CallbackHandler | exec_report_telegram_bot.py:490-528 | more options shows the role submenu; last shows only the newest update and recent at most the three newest, then the main menu, dropping the caller's session entry (a pending send update included), while an empty table changes neither session nor memo; send update starts awaiting and leaves the memo; clear only asks admins; main menu and unknown data show the menu and drop the session entry; every other branch memoises exactly the caller's roles; no table is written |

## Left out

- The Telegram transport is not modelled: replies, keyboards and their layout, `callback_query.answer`, message deletion, `asyncio.sleep` and the webhook.
- `main()`'s handler registration is not modelled, and neither is the routing of an update to a handler. The wiring registers dedicated callback handlers before `callback_handler`, so that handler's "send_update", "clear_updates" and "main_menu" branches are never reached in the running bot. `CallbackHandler` models all of its branches as written.
- The prompt sent to Gemini and the AssemblyAI polling are not modelled. They appear only as parameter functions and values.
- SQLite DDL, `migrate_db`, connection handling and the duplicate `init_db` of the onboarding module are not modelled.
- exec_report_audio.py and settings.py are not part of this model.
- `get_all_admin_ids` is not modelled. It is not called by the core, and it calls `.isdigit()` on an integer.
- The `lru_cache` bound of 256 entries is not modelled. The memo is an unbounded map. Eviction would only make a lookup read the table again.
- PyStr.Lower: lowers ASCII letters only. Every comparison the core makes with a lowered string is against ASCII literals.
- PyStr.ParseInt: accepts optional surrounding white space, a sign, and ASCII digit groups joined by single underscores. Python's non-ASCII digits are not modelled.
- Timestamps are not wall-clock time. They are the counter, so rows written in the same second are still strictly ordered. The photo name uses the counter in place of `datetime.now().timestamp()`. Because the counter advances only when a row is saved, a photo downloaded after a summarizer failure reuses the previous photo's name and overwrites that file, whereas the source gives each download a fresh timestamp name.
- The Telegram filter details are not modelled: `filters.COMMAND`, the `$` of the entry-point regular expressions, and `/start@botname`.
- Roles.FullName: NULL name columns (printed as "None") are not modelled. A row always holds strings.
- BotCallbacks.MoreOptions: models the handler as if it ran on a message. Registered on the "more_options" callback, it would read the missing `update.message` and raise. No button sends that callback data.
- BotSubmit.HandleMessage: a photo download that fails part-way is modelled as writing no file.
- BotRetrieval.Render: states the caption's head and tail, not the HTML parse mode's treatment of `**`.

## Findings

| source | as written | input that shows it | evidently intended | confidence | as-written member | corrected member |
|---|---|---|---|---|---|---|
| exec_report_onboarding.py:379-387 | the join upsert's column list names `last_name`, which the `users` table does not have, so SQLite rejects the statement; `org_name` raises after replying "You've successfully joined", and nobody can join an existing organization | stored choice "join" and the name of an existing organization | insert or update the `surname` column, as the `DO UPDATE` clause does, registering the user under that organization | high (not executed) | Onboarding.RegisterOrg | Onboarding.RegisterOrgIntended |
