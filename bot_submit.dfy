/** exec_report_telegram_bot.py: submitting an update as text, photo or audio (handle_message,
    save_update, handle_audio, is_supported_file). The summarizer (Gemini), the transcriber
    (AssemblyAI) and the outcome of each download are parameters. */
module BotSubmit {
  import opened PyStr
  import opened Store
  import opened Roles
  import opened Onboarding
  import opened BotSession

  /** The fields of an incoming message the handlers read; voice and audio hold the file_id. */
  datatype Message = Message(
    sender: Sender,
    messageId: int,
    text: Option<string>,
    caption: Option<string>,
    photo: bool,
    voice: Option<string>,
    audio: Option<string>)

  /** The text an update is made of: the transcription when there is one, else the caption,
      else the message text, else "". */
  function ChooseText(overrideText: Option<string>, m: Message): (t: string)
    ensures Truthy(overrideText) ==> t == overrideText.value
    ensures !Truthy(overrideText) && Truthy(m.caption) ==> t == m.caption.value
    ensures !Truthy(overrideText) && !Truthy(m.caption) ==> t == m.text.GetOr("")
    ensures t == "" || Some(t) in {overrideText, m.caption, m.text}
  {
    if Truthy(overrideText) then overrideText.value
    else if Truthy(m.caption) then m.caption.value
    else m.text.GetOr("")
  }

  /** The placeholder stored for an update that has an image and no text. */
  const NoTextProvided: string := "[No text provided]"

  /** structured_text of a saved update: the placeholder for blank text, otherwise what
      structure_text returns (None: the Gemini call raised). */
  function StructuredText(text: string, structure: string -> Option<string>): (r: Option<string>)
    ensures IsBlank(text) ==> r == Some(NoTextProvided)
    ensures !IsBlank(text) ==> r == structure(text)
  {
    if IsBlank(text) then Some(NoTextProvided) else structure(text)
  }

  /** In x + [c] + y with no c in x, the first c sits at index |x|. */
  lemma FirstOccurrence(x: string, y: string, c: char)
    requires c !in x
    ensures (x + [c] + y)[|x|] == c
    ensures forall k :: 0 <= k < |x| ==> (x + [c] + y)[k] != c
  {
    assert forall k :: 0 <= k < |x| ==> (x + [c] + y)[k] == x[k];
  }

  /** A string split at its first c: what comes before a c and after it is determined. */
  lemma SplitAtFirst(x1: string, y1: string, x2: string, y2: string, c: char)
    requires c !in x1 && c !in x2
    requires x1 + [c] + y1 == x2 + [c] + y2
    ensures x1 == x2 && y1 == y2
  {
    var s := x1 + [c] + y1;
    FirstOccurrence(x1, y1, c);
    FirstOccurrence(x2, y2, c);
    assert |x1| == |x2|;
    assert x1 == s[..|x1|] == x2;
    assert y1 == s[|x1| + 1..] == y2;
  }

  /** str(n) never contains an underscore. */
  lemma NoUnderscore(n: int)
    ensures '_' !in IntToString(n)
  {
  }

  /** The file name f"{a}_{b}{suffix}". */
  function PairName(a: int, b: int, suffix: string): (r: string)
    ensures StartsWith(r, IntToString(a) + "_")
    ensures |r| > |suffix| + 1 && r[|r| - |suffix|..] == suffix
  {
    var r := IntToString(a) + "_" + (IntToString(b) + suffix);
    assert r[..|IntToString(a) + "_"|] == IntToString(a) + "_";
    r
  }

  /** Equal strings with a common suffix have equal beginnings. */
  lemma SuffixCancel(r1: string, r2: string, suffix: string)
    requires r1 + suffix == r2 + suffix
    ensures r1 == r2
  {
    assert r1 == (r1 + suffix)[..|r1|];
  }

  /** Two f"{a}_{b}{suffix}" names are equal only for equal a and b. */
  lemma PairNameInjective(a1: int, b1: int, a2: int, b2: int, suffix: string)
    requires PairName(a1, b1, suffix) == PairName(a2, b2, suffix)
    ensures a1 == a2 && b1 == b2
  {
    var x1, x2 := IntToString(a1), IntToString(a2);
    var y1, y2 := IntToString(b1) + suffix, IntToString(b2) + suffix;
    NoUnderscore(a1);
    NoUnderscore(a2);
    SplitAtFirst(x1, y1, x2, y2, '_');
    SuffixCancel(IntToString(b1), IntToString(b2), suffix);
    IntToStringInjective(a1, a2);
    IntToStringInjective(b1, b2);
  }

  /** A pair name holds a '/' only if its suffix does. */
  lemma PairNameNoSlash(a: int, b: int, suffix: string)
    requires '/' !in suffix
    ensures '/' !in PairName(a, b, suffix)
  {
    assert '/' !in IntToString(a) && '/' !in IntToString(b);
  }

  /** image_path of a photo: f"{user_id}_{now}.jpg", the clock standing in for now. */
  function PhotoPath(uid: UserId, now: nat): (p: Path)
    ensures StartsWith(p, IntToString(uid) + "_")
  {
    PairName(uid, now, ".jpg")
  }

  /** Photos saved by different users, or by one user at different times, never share a file. */
  lemma PhotoPathInjective(u1: UserId, t1: nat, u2: UserId, t2: nat)
    requires PhotoPath(u1, t1) == PhotoPath(u2, t2)
    ensures u1 == u2 && t1 == t2
  {
    PairNameInjective(u1, t1, u2, t2, ".jpg");
  }

  /** The prefix handle_audio puts in front of the temporary file's name. */
  const TempAudioPrefix: string := "temp_audio_"

  lemma TempAudioPrefixShape()
    ensures |TempAudioPrefix| > 0 && TempAudioPrefix[0] != '.' && '/' !in TempAudioPrefix
  {
    var pre := TempAudioPrefix;
    assert pre[0] == 't';
  }

  /** The temporary audio file f"temp_audio_{user_id}_{message_id}.ogg". */
  function TempAudioPath(uid: UserId, messageId: int): (p: Path)
    ensures StartsWith(p, TempAudioPrefix)
  {
    TempAudioPrefix + PairName(uid, messageId, ".ogg")
  }

  /** Different messages get different temporary files, as the naming intends. */
  lemma TempAudioPathInjective(u1: UserId, m1: int, u2: UserId, m2: int)
    requires TempAudioPath(u1, m1) == TempAudioPath(u2, m2)
    ensures u1 == u2 && m1 == m2
  {
    PrefixCancel(TempAudioPrefix, PairName(u1, m1, ".ogg"), PairName(u2, m2, ".ogg"));
    PairNameInjective(u1, m1, u2, m2, ".ogg");
  }

  /** Equal strings with a common prefix have equal remainders. */
  lemma PrefixCancel(p: string, r1: string, r2: string)
    requires p + r1 == p + r2
    ensures r1 == r2
  {
    assert r1 == (p + r1)[|p|..];
  }

  /** SUPPORTED_FORMATS. */
  const SupportedFormats: set<string> := {".mp3", ".wav", ".m4a", ".flac", ".ogg", ".webm"}

  /** is_supported_file: the lower-cased extension is one of the supported formats. */
  function IsSupportedFile(filename: string): (b: bool)
    ensures b ==> Ext(filename) != [] && Ext(filename)[0] == '.'
  {
    Lower(Ext(filename)) in SupportedFormats
  }

  /** A name without a dot is never supported. */
  lemma {:induction false} NoExtensionUnsupported(filename: string)
    requires '.' !in filename
    ensures !IsSupportedFile(filename)
  {
  }

  /** ".ogg" is one of the supported formats. */
  lemma OggSupported()
    ensures Lower(".ogg") in SupportedFormats
  {
    LowerOfChars(".ogg", ".ogg");
  }

  /** For a plain file name p (no '/', not starting with a dot) that ends in the dot extension
      ext with no further dot, support is decided by ext alone, case-insensitively. */
  lemma SupportedByExtension(p: string, ext: string)
    requires 1 < |ext| < |p| && p[|p| - |ext|..] == ext
    requires ext[0] == '.' && forall k :: 0 < k < |ext| ==> ext[k] != '.'
    requires '/' !in p && p[0] != '.'
    ensures IsSupportedFile(p) <==> Lower(ext) in SupportedFormats
  {
    ExtOfDottedSuffix(p, ext);
  }

  /** Putting a prefix without '/' and not starting with a dot in front of a name without '/'
      keeps the name's ending. */
  lemma PrefixKeepsShape(pre: string, name: string, ext: string)
    requires |pre| > 0 && pre[0] != '.' && '/' !in pre
    requires |name| >= |ext| && name[|name| - |ext|..] == ext && '/' !in name
    ensures var p := pre + name;
            |p| > |ext| && p[|p| - |ext|..] == ext && '/' !in p && p[0] != '.'
  {
    var p := pre + name;
    assert p[|p| - |ext|..] == name[|name| - |ext|..];
  }

  /** The temporary audio file name has no directory part, does not start with a dot, and ends in
      ".ogg". */
  lemma TempAudioPathShape(uid: UserId, messageId: int)
    ensures var p := TempAudioPath(uid, messageId);
            |p| > 4 && p[|p| - 4..] == ".ogg" && '/' !in p && p[0] != '.'
  {
    var name := PairName(uid, messageId, ".ogg");
    assert '/' !in name by { PairNameNoSlash(uid, messageId, ".ogg"); }
    TempAudioPrefixShape();
    PrefixKeepsShape(TempAudioPrefix, name, ".ogg");
  }

  /** The temporary audio file handle_audio writes has a supported extension. */
  lemma TempAudioPathSupported(uid: UserId, messageId: int)
    ensures IsSupportedFile(TempAudioPath(uid, messageId))
  {
    var p := TempAudioPath(uid, messageId);
    var ogg := ".ogg";
    assert Ext(p) == ogg by {
      TempAudioPathShape(uid, messageId);
      assert ogg[0] == '.' && forall k :: 0 < k < |ogg| ==> ogg[k] != '.';
      ExtOfDottedSuffix(p, ogg);
    }
    OggSupported();
  }

  /** The outcome of handle_message. PhotoDownloadFailed and SummaryFailed are exceptions that
      escape the handler. */
  datatype SubmitResult =
    | Ignored
    | NotRegistered
    | PhotoDownloadFailed
    | NothingToSave
    | SummaryFailed
    | Saved(structured: string, menu: seq<Button>)

  /** save_update: append one row stamped with the clock. */
  method SaveUpdate(db: Database, uid: UserId, username: Option<string>, organization: string,
                    originalText: string, structuredText: string, imagePath: Option<Path>)
    requires db.Valid()
    modifies db
    ensures db.Valid()
    ensures db.updates == old(db.updates)
                          + [UpdateRow(uid, username, organization, originalText, structuredText, imagePath, old(db.clock))]
    ensures db.clock == old(db.clock) + 1
    ensures db.organizations == old(db.organizations) && db.users == old(db.users) && db.visits == old(db.visits)
  {
    var row := UpdateRow(uid, username, organization, originalText, structuredText, imagePath, db.clock);
    AppendChronological(db.updates, row, db.clock);
    db.updates := db.updates + [row];
    db.clock := db.clock + 1;
  }

  /** Whether handle_message gets as far as saving: the user awaits an update, has a users row,
      any photo downloads, the text is not blank unless there is a photo, and the summary succeeds. */
  ghost predicate Saves(awaiting: bool, users: map<UserId, UserRow>, m: Message, overrideText: Option<string>,
                        structure: string -> Option<string>, photoOk: bool)
  {
    var text := ChooseText(overrideText, m);
    && awaiting
    && m.sender.id in users
    && (m.photo ==> photoOk)
    && (IsBlank(text) ==> m.photo)
    && StructuredText(text, structure).Some?
  }

  /** handle_message: only a user awaiting an update is served; a saved update is exactly one new
      row built from the chosen text, the user's organization and the photo, after which the
      session entry is dropped and the main menu shown. Nothing is saved on any other path, and
      the session is left as it was. */
  method HandleMessage(db: Database, sess: Sessions, cache: RoleCache, disk: Disk, m: Message,
                       overrideText: Option<string>, structure: string -> Option<string>, photoOk: bool)
    returns (res: SubmitResult)
    requires db.Valid()
    modifies db, sess, cache, disk
    ensures db.Valid()
    ensures db.organizations == old(db.organizations) && db.users == old(db.users) && db.visits == old(db.visits)
    ensures !old(sess.Awaiting(m.sender.id)) ==> res == Ignored && unchanged(db, sess, cache, disk)
    ensures old(sess.Awaiting(m.sender.id)) && m.sender.id !in db.users ==>
              res == NotRegistered && unchanged(db, sess, cache, disk)
    ensures old(sess.Awaiting(m.sender.id)) && m.sender.id in db.users && m.photo && !photoOk ==>
              res == PhotoDownloadFailed && unchanged(db, sess, cache, disk)
    ensures res != Ignored && res != NotRegistered && res != PhotoDownloadFailed ==>
              disk.files == old(disk.files) + (if m.photo then {PhotoPath(m.sender.id, old(db.clock))} else {})
    ensures old(disk.files) <= disk.files <= old(disk.files) + {PhotoPath(m.sender.id, old(db.clock))}
    ensures !res.Saved? ==> unchanged(db, sess, cache)
    ensures res.Saved? <==> Saves(old(sess.Awaiting(m.sender.id)), db.users, m, overrideText, structure, photoOk)
    ensures res.Saved? ==>
              var uid := m.sender.id;
              var text := ChooseText(overrideText, m);
              && res.structured == StructuredText(text, structure).value
              && db.updates == old(db.updates)
                 + [UpdateRow(uid, m.sender.username, db.users[uid].org, text, res.structured,
                              if m.photo then Some(PhotoPath(uid, old(db.clock))) else None, old(db.clock))]
              && db.clock == old(db.clock) + 1
              && sess.userState == old(sess.userState) - {uid}
              && cache.entries == old(cache.entries)[uid := CachedRoles(old(cache.entries), db.users, uid)]
              && res.menu == MainMenu(CachedRoles(old(cache.entries), db.users, uid))
  {
    var uid := m.sender.id;
    if !sess.Awaiting(uid) {
      return Ignored;
    }
    var row := LookupUser(db.users, uid);
    if row.None? {
      return NotRegistered;
    }
    var organization := row.value.org;

    var imagePath: Option<Path> := None;
    if m.photo {
      if !photoOk {
        return PhotoDownloadFailed;
      }
      imagePath := Some(PhotoPath(uid, db.clock));
      disk.files := disk.files + {imagePath.value};
    }

    var text := ChooseText(overrideText, m);
    if IsBlank(text) && imagePath.None? {
      return NothingToSave;
    }

    var structured := StructuredText(text, structure);
    if structured.None? {
      return SummaryFailed;
    }

    var menu := CommitUpdate(db, sess, cache, uid, m.sender.username, organization, text, structured.value, imagePath);
    res := Saved(structured.value, menu);
  }

  /** The tail of handle_message once the summary exists: save the row, drop the session entry and
      show the main menu. */
  method CommitUpdate(db: Database, sess: Sessions, cache: RoleCache, uid: UserId, username: Option<string>,
                      organization: string, text: string, structured: string, imagePath: Option<Path>)
    returns (menu: seq<Button>)
    requires db.Valid()
    modifies db, sess, cache
    ensures db.Valid()
    ensures db.updates == old(db.updates) + [UpdateRow(uid, username, organization, text, structured, imagePath, old(db.clock))]
    ensures db.clock == old(db.clock) + 1
    ensures db.organizations == old(db.organizations) && db.users == old(db.users) && db.visits == old(db.visits)
    ensures sess.userState == old(sess.userState) - {uid}
    ensures cache.entries == old(cache.entries)[uid := CachedRoles(old(cache.entries), db.users, uid)]
    ensures menu == MainMenu(CachedRoles(old(cache.entries), db.users, uid))
  {
    SaveUpdate(db, uid, username, organization, text, structured, imagePath);
    sess.userState := sess.userState - {uid};
    menu := ShowMainMenu(sess, cache, db, uid);
  }

  /** The outcome of handle_audio. ProcessingError is the reply of its except clause. */
  datatype AudioResult =
    | NoAudio
    | DownloadFailed
    | ProcessingError
    | NotUnderstood
    | Submitted(result: SubmitResult)

  /** The file_id handle_audio downloads: the voice note's, else the audio file's. */
  function AudioFileId(m: Message): (id: Option<string>)
    ensures m.voice.Some? ==> id == m.voice
    ensures m.voice.None? ==> id == m.audio
  {
    if m.voice.Some? then m.voice else m.audio
  }

  /** handle_audio: download to the temporary file, transcribe, and hand a non-blank transcription
      to handle_message as its text. Once the download has succeeded the temporary file is removed
      on every path, unless removing it fails (stuck); a download that raises returns before that
      cleanup, so a partly written file (partial) stays; no update is saved from a missing or blank
      transcription. */
  method HandleAudio(db: Database, sess: Sessions, cache: RoleCache, disk: Disk, m: Message,
                     downloadOk: bool, partial: bool, transcript: Option<string>, structure: string -> Option<string>,
                     photoOk: bool, stuck: set<Path>)
    returns (res: AudioResult)
    requires db.Valid()
    modifies db, sess, cache, disk
    ensures db.Valid()
    ensures db.organizations == old(db.organizations) && db.users == old(db.users) && db.visits == old(db.visits)
    ensures !Truthy(AudioFileId(m)) ==> res == NoAudio && unchanged(db, sess, cache, disk)
    ensures Truthy(AudioFileId(m)) && !downloadOk ==>
              && res == DownloadFailed && unchanged(db, sess, cache)
              && disk.files == old(disk.files) + (if partial then {TempAudioPath(m.sender.id, m.messageId)} else {})
    ensures Truthy(AudioFileId(m)) && downloadOk ==>
              var temp := TempAudioPath(m.sender.id, m.messageId);
              temp in disk.files <==> temp in stuck
    ensures Truthy(AudioFileId(m)) && downloadOk && (transcript.None? || IsBlank(transcript.value)) ==>
              && res == (if transcript.None? then ProcessingError else NotUnderstood)
              && unchanged(db, sess, cache)
    ensures res.Submitted? ==> res.result != SummaryFailed && res.result != PhotoDownloadFailed
    ensures !res.Submitted? || !res.result.Saved? ==> db.updates == old(db.updates) && sess.userState == old(sess.userState)
    ensures res.Submitted? && res.result.Saved? ==>
              && transcript.Some?
              && |db.updates| == |old(db.updates)| + 1
              && db.updates[..|old(db.updates)|] == old(db.updates)
              && db.updates[|old(db.updates)|].originalText == Strip(transcript.value)
              && !sess.Awaiting(m.sender.id)
  {
    var fileId := AudioFileId(m);
    if !Truthy(fileId) {
      return NoAudio;
    }
    var temp := TempAudioPath(m.sender.id, m.messageId);
    if !downloadOk {
      if partial {
        disk.files := disk.files + {temp};
      }
      return DownloadFailed;
    }
    disk.files := disk.files + {temp};

    // try
    if transcript.None? {
      // None.strip() raises AttributeError, caught below
      res := ProcessingError;
    } else {
      var transcribed := Strip(transcript.value);
      if transcribed == [] {
        res := NotUnderstood;
      } else {
        var submitted := HandleMessage(db, sess, cache, disk, m, Some(transcribed), structure, photoOk);
        if submitted == SummaryFailed || submitted == PhotoDownloadFailed {
          res := ProcessingError;
        } else {
          res := Submitted(submitted);
        }
      }
    }
    // finally
    if temp in disk.files && temp !in stuck {
      disk.files := disk.files - {temp};
    }
  }
}
