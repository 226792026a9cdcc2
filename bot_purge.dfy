/** exec_report_telegram_bot.py: the admin-only purge of every update (clear_updates,
    handle_confirmation) and the loop that deletes the image files the rows point at. */
module BotPurge {
  import opened PyStr
  import opened Store
  import opened Roles
  import opened BotSession

  /** The reply of clear_updates. */
  datatype ClearReply = NotAuthorized | AskConfirm

  /** clear_updates: only an admin (by the possibly memoised roles) is asked to confirm, and only
      that admin's session entry is dropped; nothing is deleted yet. */
  method ClearUpdates(sess: Sessions, cache: RoleCache, db: Database, uid: UserId) returns (r: ClearReply)
    modifies sess, cache
    ensures r == AskConfirm <==> CachedRoles(old(cache.entries), db.users, uid).admin
    ensures cache.entries == old(cache.entries)[uid := CachedRoles(old(cache.entries), db.users, uid)]
    ensures r == AskConfirm ==> sess.userState == old(sess.userState) - {uid}
    ensures r == NotAuthorized ==> sess.userState == old(sess.userState)
  {
    var roles := cache.Get(db, uid);
    if !roles.admin {
      return NotAuthorized;
    }
    sess.userState := sess.userState - {uid};
    r := AskConfirm;
  }

  /** SELECT image_path FROM updates: one entry per row, in table order. */
  function ImagePaths(rows: seq<UpdateRow>): (r: seq<Option<Path>>)
    ensures |r| == |rows|
    ensures forall i :: 0 <= i < |rows| ==> r[i] == rows[i].imagePath
  {
    if rows == [] then [] else ImagePaths(rows[..|rows| - 1]) + [rows[|rows| - 1].imagePath]
  }

  /** The non-empty paths among the selected ones. */
  function Images(paths: seq<Option<Path>>): set<Path>
  {
    set i | 0 <= i < |paths| && Truthy(paths[i]) :: paths[i].value
  }

  /** The images of paths + [img] are those of paths and, when non-empty, img itself. */
  lemma ImagesSnoc(paths: seq<Option<Path>>, img: Option<Path>)
    ensures Images(paths + [img]) == Images(paths) + (if Truthy(img) then {img.value} else {})
  {
    var all := paths + [img];
    forall p | p in Images(all)
      ensures p in Images(paths) || (Truthy(img) && p == img.value)
    {
      var i :| 0 <= i < |all| && Truthy(all[i]) && all[i].value == p;
      if i < |paths| {
        assert paths[i] == all[i];
      }
    }
    forall p | p in Images(paths)
      ensures p in Images(all)
    {
      var i :| 0 <= i < |paths| && Truthy(paths[i]) && paths[i].value == p;
      assert all[i] == paths[i];
    }
    if Truthy(img) {
      assert all[|paths|] == img;
    }
  }

  /** Removing one more existing file grows the set of removed files by exactly one. */
  lemma RemoveOne(files: set<Path>, left: set<Path>, p: Path)
    requires left <= files && p in left
    ensures |files - (left - {p})| == |files - left| + 1
  {
    assert files - (left - {p}) == (files - left) + {p};
  }

  /** The files left, and the two counters, after the deletion loop. */
  datatype SweepResult = SweepResult(files: set<Path>, removed: nat, failed: nat)

  /** The deletion loop over paths: an entry counts only when it is a non-empty path that exists;
      os.remove then fails exactly for the paths in stuck, which stay on disk. */
  function Sweep(paths: seq<Option<Path>>, files: set<Path>, stuck: set<Path>): (r: SweepResult)
    ensures r.removed + r.failed <= |paths|
    ensures r.files <= files
  {
    if paths == [] then SweepResult(files, 0, 0)
    else
      var prev := Sweep(paths[..|paths| - 1], files, stuck);
      var img := paths[|paths| - 1];
      if Truthy(img) && img.value in prev.files then
        if img.value in stuck then SweepResult(prev.files, prev.removed, prev.failed + 1)
        else SweepResult(prev.files - {img.value}, prev.removed + 1, prev.failed)
      else prev
  }

  /** One more named path removes it from what is left, unless it is stuck. */
  lemma SweepStep(files: set<Path>, named: set<Path>, stuck: set<Path>, p: Path)
    ensures files - ((named + {p}) - stuck) == if p in stuck then files - (named - stuck) else files - (named - stuck) - {p}
  {
  }

  /** The removed counter is the number of files that disappeared. */
  lemma {:induction false} SweepCount(paths: seq<Option<Path>>, files: set<Path>, stuck: set<Path>)
    ensures Sweep(paths, files, stuck).removed == |files - Sweep(paths, files, stuck).files|
  {
    if paths != [] {
      var init := paths[..|paths| - 1];
      var img := paths[|paths| - 1];
      SweepCount(init, files, stuck);
      var prev := Sweep(init, files, stuck);
      if Truthy(img) && img.value in prev.files && img.value !in stuck {
        RemoveOne(files, prev.files, img.value);
      }
    }
  }

  /** The loop removes exactly the existing files some entry names, other than the stuck ones. */
  lemma {:induction false} SweepFiles(paths: seq<Option<Path>>, files: set<Path>, stuck: set<Path>)
    ensures Sweep(paths, files, stuck).files == files - (Images(paths) - stuck)
  {
    if paths != [] {
      var init := paths[..|paths| - 1];
      var img := paths[|paths| - 1];
      SweepFiles(init, files, stuck);
      assert init + [img] == paths;
      ImagesSnoc(init, img);
      if Truthy(img) {
        SweepStep(files, Images(init), stuck, img.value);
      }
    }
  }

  /** The loop of handle_confirmation, removing files from disk one path at a time. */
  method SweepImages(disk: Disk, paths: seq<Option<Path>>, stuck: set<Path>) returns (removed: nat, failed: nat)
    modifies disk
    ensures SweepResult(disk.files, removed, failed) == Sweep(paths, old(disk.files), stuck)
  {
    removed, failed := 0, 0;
    var i := 0;
    while i < |paths|
      invariant 0 <= i <= |paths|
      invariant SweepResult(disk.files, removed, failed) == Sweep(paths[..i], old(disk.files), stuck)
    {
      assert paths[..i + 1][..i] == paths[..i];
      var img := paths[i];
      if Truthy(img) && img.value in disk.files {
        if img.value in stuck {
          failed := failed + 1;
        } else {
          disk.files := disk.files - {img.value};
          removed := removed + 1;
        }
      }
      i := i + 1;
    }
    assert paths[..i] == paths;
  }

  /** Where the purge's database work can raise: connect (the finally clause then fails on the
      unbound connection), the SELECT, the DELETE after a successful SELECT (deleted_count is then
      never bound), or the commit after the DELETE (deleted_count is bound, and closing the
      connection rolls the DELETE back). */
  datatype PurgeFault = NoFault | ConnectFails | SelectFails | DeleteFails | CommitFails

  /** The "confirm_clear" branch: read the image paths, delete every row, run the deletion loop and
      empty the session map. deleted is cursor.rowcount, None when it was never bound. */
  method Purge(db: Database, sess: Sessions, disk: Disk, fault: PurgeFault, stuck: set<Path>)
    returns (deleted: Option<nat>, removed: nat, failed: nat)
    requires db.Valid()
    modifies db, sess, disk
    ensures db.Valid()
    ensures db.organizations == old(db.organizations) && db.users == old(db.users)
    ensures db.visits == old(db.visits) && db.clock == old(db.clock)
    ensures deleted.Some? <==> fault == NoFault || fault == CommitFails
    ensures deleted.Some? ==> deleted.value == |old(db.updates)|
    ensures fault == NoFault ==> db.updates == []
    ensures fault != NoFault ==> db.updates == old(db.updates)
    ensures fault == ConnectFails ==> disk.files == old(disk.files) && sess.userState == old(sess.userState)
    ensures fault == SelectFails ==> disk.files == old(disk.files) && sess.userState == map[]
    ensures fault == NoFault || fault == DeleteFails || fault == CommitFails ==>
              && SweepResult(disk.files, removed, failed) == Sweep(ImagePaths(old(db.updates)), old(disk.files), stuck)
              && sess.userState == map[]
  {
    deleted, removed, failed := None, 0, 0;
    if fault == ConnectFails {
      return;
    }
    var paths: seq<Option<Path>> := [];
    if fault != SelectFails {
      paths := ImagePaths(db.updates);
      if fault != DeleteFails {
        deleted := Some(|db.updates|);
        if fault != CommitFails {
          db.updates := [];
        }
      }
    }
    removed, failed := SweepImages(disk, paths, stuck);
    sess.userState := map[];
  }

  /** The outcome of handle_confirmation. Crashed: the handler raised (deleted_count unbound or the
      connection never opened) before replying. */
  datatype Confirmation =
    | Refused(menu: seq<Button>)
    | Cleared(deleted: nat, removed: nat, failed: nat, menu: seq<Button>)
    | Cancelled(menu: seq<Button>)
    | Crashed
    | NoAction

  /** handle_confirmation. A non-admin or "cancel_clear" gets the main menu and nothing is deleted.
      "confirm_clear" by an admin deletes every update of every organization, removes the image
      files the rows named (other than the stuck ones), and empties the whole session map. When only
      the commit fails, the reply still counts every row as cleared though all of them remain. */
  method HandleConfirmation(db: Database, sess: Sessions, cache: RoleCache, disk: Disk, uid: UserId,
                            choice: string, fault: PurgeFault, stuck: set<Path>)
    returns (res: Confirmation)
    requires db.Valid()
    modifies db, sess, cache, disk
    ensures db.Valid()
    ensures db.organizations == old(db.organizations) && db.users == old(db.users)
    ensures db.visits == old(db.visits) && db.clock == old(db.clock)
    ensures cache.entries == old(cache.entries)[uid := CachedRoles(old(cache.entries), db.users, uid)]
    ensures !CachedRoles(old(cache.entries), db.users, uid).admin ==>
              && res == Refused(MainMenu(CachedRoles(old(cache.entries), db.users, uid)))
              && db.updates == old(db.updates) && disk.files == old(disk.files)
              && sess.userState == old(sess.userState) - {uid}
    ensures CachedRoles(old(cache.entries), db.users, uid).admin && choice == "cancel_clear" ==>
              && res == Cancelled(MainMenu(CachedRoles(old(cache.entries), db.users, uid)))
              && db.updates == old(db.updates) && disk.files == old(disk.files)
              && sess.userState == old(sess.userState) - {uid}
    ensures CachedRoles(old(cache.entries), db.users, uid).admin && choice != "confirm_clear" && choice != "cancel_clear" ==>
              && res == NoAction
              && db.updates == old(db.updates) && disk.files == old(disk.files)
              && sess.userState == old(sess.userState)
    ensures CachedRoles(old(cache.entries), db.users, uid).admin && choice == "confirm_clear" && fault == NoFault ==>
              && res.Cleared? && res.deleted == |old(db.updates)|
              && res.menu == MainMenu(CachedRoles(old(cache.entries), db.users, uid))
              && db.updates == []
              && SweepResult(disk.files, res.removed, res.failed) == Sweep(ImagePaths(old(db.updates)), old(disk.files), stuck)
              && sess.userState == map[]
    ensures CachedRoles(old(cache.entries), db.users, uid).admin && choice == "confirm_clear" && fault == CommitFails ==>
              && res.Cleared? && res.deleted == |old(db.updates)|
              && res.menu == MainMenu(CachedRoles(old(cache.entries), db.users, uid))
              && db.updates == old(db.updates)
              && SweepResult(disk.files, res.removed, res.failed) == Sweep(ImagePaths(old(db.updates)), old(disk.files), stuck)
              && sess.userState == map[]
    ensures CachedRoles(old(cache.entries), db.users, uid).admin && choice == "confirm_clear"
            && fault != NoFault && fault != CommitFails ==>
              && res == Crashed
              && db.updates == old(db.updates)
              && (fault == ConnectFails ==> disk.files == old(disk.files) && sess.userState == old(sess.userState))
              && (fault == SelectFails ==> disk.files == old(disk.files) && sess.userState == map[])
              && (fault == DeleteFails ==>
                    disk.files == Sweep(ImagePaths(old(db.updates)), old(disk.files), stuck).files && sess.userState == map[])
  {
    var roles := cache.Get(db, uid);
    ghost var entries := cache.entries;
    if !roles.admin {
      var menu := ShowMainMenu(sess, cache, db, uid);
      assert cache.entries == entries;
      return Refused(menu);
    }
    if choice == "confirm_clear" {
      var deleted, removed, failed := Purge(db, sess, disk, fault, stuck);
      if deleted.None? {
        return Crashed;
      }
      var menu := ShowMainMenu(sess, cache, db, uid);
      assert cache.entries == entries;
      res := Cleared(deleted.value, removed, failed, menu);
    } else if choice == "cancel_clear" {
      var menu := ShowMainMenu(sess, cache, db, uid);
      assert cache.entries == entries;
      res := Cancelled(menu);
    } else {
      res := NoAction;
    }
  }

  /** After a complete purge the removed and failed counters never exceed the number of rows read,
      and every file the table did not name is still on disk. */
  lemma {:induction false} PurgeCounts(rows: seq<UpdateRow>, files: set<Path>, stuck: set<Path>, p: Path)
    requires p in files
    requires forall i :: 0 <= i < |rows| ==> rows[i].imagePath != Some(p)
    ensures var r := Sweep(ImagePaths(rows), files, stuck);
            r.removed + r.failed <= |rows| && p in r.files
  {
    var paths := ImagePaths(rows);
    SweepFiles(paths, files, stuck);
    assert p !in Images(paths) by {
      forall i | 0 <= i < |paths| && Truthy(paths[i])
        ensures paths[i].value != p
      {
        assert paths[i] == rows[i].imagePath;
      }
    }
  }
}
