/** exec_report_telegram_bot.py: reading updates back (get_updates, send_executive_update). The
    query has no WHERE clause, so every organization's updates are shown to everyone who asks. */
module BotRetrieval {
  import opened PyStr
  import opened Store
  import opened Roles
  import opened BotSession

  /** list.reverse(), and ORDER BY timestamp DESC over a table kept in timestamp order. */
  function Reverse<T>(s: seq<T>): (r: seq<T>)
    ensures |r| == |s|
    ensures forall i :: 0 <= i < |s| ==> r[i] == s[|s| - 1 - i]
  {
    if s == [] then [] else Reverse(s[1..]) + [s[0]]
  }

  /** Reading a table in timestamp order backwards lists it newest first, as ORDER BY timestamp DESC
      does. */
  lemma {:induction false} ReverseIsNewestFirst(rows: seq<UpdateRow>)
    requires Chronological(rows)
    ensures forall i, j :: 0 <= i < j < |rows| ==> Reverse(rows)[i].timestamp > Reverse(rows)[j].timestamp
  {
    var r := Reverse(rows);
    forall i, j | 0 <= i < j < |rows|
      ensures r[i].timestamp > r[j].timestamp
    {
      assert r[i] == rows[|rows| - 1 - i] && r[j] == rows[|rows| - 1 - j];
    }
  }

  /** LIMIT n: the first n entries, or all of them when there are fewer. */
  function Take<T>(s: seq<T>, n: nat): (r: seq<T>)
    ensures |r| == if n < |s| then n else |s|
    ensures r <= s
  {
    if n < |s| then s[..n] else s
  }

  /** The rows get_updates shows, in the order it shows them: the query's rows (newest first, at
      most limit of them), reversed. */
  function Latest(rows: seq<UpdateRow>, limit: nat): (r: seq<UpdateRow>)
    ensures |r| == if limit < |rows| then limit else |rows|
  {
    Reverse(Take(Reverse(rows), limit))
  }

  /** What get_updates shows is exactly the last min(limit, |rows|) rows of the table, oldest first. */
  lemma {:induction false} LatestIsSuffix(rows: seq<UpdateRow>, limit: nat)
    ensures var k := if limit < |rows| then limit else |rows|;
            Latest(rows, limit) == rows[|rows| - k..]
  {
    var k := if limit < |rows| then limit else |rows|;
    var t := Take(Reverse(rows), limit);
    var l := Latest(rows, limit);
    assert |l| == k;
    forall i | 0 <= i < k
      ensures l[i] == rows[|rows| - k + i]
    {
      assert l[i] == t[k - 1 - i];
      assert t[k - 1 - i] == Reverse(rows)[k - 1 - i];
    }
  }

  /** In a table kept in timestamp order, every row before position n is older than every row from
      n on. */
  lemma {:induction false} OlderBefore(rows: seq<UpdateRow>, n: nat, x: UpdateRow, y: UpdateRow)
    requires Chronological(rows) && n <= |rows|
    requires x in rows[..n] && y in rows[n..]
    ensures x.timestamp < y.timestamp
  {
    var i :| 0 <= i < n && rows[..n][i] == x;
    var j :| 0 <= j < |rows| - n && rows[n..][j] == y;
    assert rows[i] == x && rows[n + j] == y;
  }

  /** The last k rows of a table kept in timestamp order are in timestamp order themselves, and
      newer than every row left out. */
  lemma {:induction false} SuffixIsNewest(rows: seq<UpdateRow>, k: nat)
    requires Chronological(rows) && k <= |rows|
    ensures var shown := rows[|rows| - k..];
            && Chronological(shown)
            && (forall y :: y in shown ==> y in rows)
            && (forall x, y :: x in rows && x !in shown && y in shown ==> x.timestamp < y.timestamp)
  {
    var shown := rows[|rows| - k..];
    var older := rows[..|rows| - k];
    assert rows == older + shown;
    assert Chronological(shown) by {
      forall i, j | 0 <= i < j < |shown|
        ensures shown[i].timestamp < shown[j].timestamp
      {
        assert shown[i] == rows[|rows| - k + i] && shown[j] == rows[|rows| - k + j];
      }
    }
    forall x, y | x in rows && x !in shown && y in shown
      ensures x.timestamp < y.timestamp
    {
      assert x in older;
      OlderBefore(rows, |rows| - k, x, y);
    }
  }

  /** get_updates shows at most limit rows, none exactly when the table is empty (or limit is 0),
      the newest ones across all organizations, presented oldest first. */
  lemma {:induction false} LatestShowsNewest(rows: seq<UpdateRow>, limit: nat)
    requires Chronological(rows)
    ensures var shown := Latest(rows, limit);
            && |shown| <= limit
            && (shown == [] <==> rows == [] || limit == 0)
            && Chronological(shown)
            && (forall y :: y in shown ==> y in rows)
            && (forall x, y :: x in rows && x !in shown && y in shown ==> x.timestamp < y.timestamp)
  {
    var k := if limit < |rows| then limit else |rows|;
    LatestIsSuffix(rows, limit);
    SuffixIsNewest(rows, k);
  }

  /** "Last update" (limit 1) right after a save shows exactly the update just saved. */
  lemma {:induction false} LastUpdateAfterSave(rows: seq<UpdateRow>, saved: UpdateRow)
    ensures Latest(rows + [saved], 1) == [saved]
  {
    LatestIsSuffix(rows + [saved], 1);
  }

  /** One message send_executive_update sends: a caption and, when the image file exists, a photo. */
  datatype Card = Card(caption: string, photo: Option<Path>)

  /** str(username) in an f-string: a missing username prints as "None". */
  function ShownName(username: Option<string>): (s: string)
    ensures username.Some? ==> s == username.value
  {
    if username.Some? then username.value else "None"
  }

  /** The caption's fixed head: the bust-in-silhouette emoji, a space and "**@". */
  const CaptionHead: string := "\U{1F464} **@"

  /** send_executive_update for one row: the caption names the author and carries the structured
      text; the photo is attached exactly when the row has a non-empty image path that exists. */
  function Render(row: UpdateRow, files: set<Path>): (c: Card)
    ensures c.photo.Some? <==> Truthy(row.imagePath) && row.imagePath.value in files
    ensures c.photo.Some? ==> c.photo == row.imagePath
    ensures StartsWith(c.caption, CaptionHead + ShownName(row.username))
    ensures |c.caption| >= |row.structuredText|
            && c.caption[|c.caption| - |row.structuredText|..] == row.structuredText
  {
    var caption := CaptionHead + ShownName(row.username) + "**\n" + row.structuredText;
    assert caption[..|CaptionHead + ShownName(row.username)|] == CaptionHead + ShownName(row.username);
    assert caption[|caption| - |row.structuredText|..] == row.structuredText;
    Card(caption, if Truthy(row.imagePath) && row.imagePath.value in files then row.imagePath else None)
  }

  /** The loop of get_updates: one card per row, in order. */
  method SendRows(rows: seq<UpdateRow>, files: set<Path>) returns (cards: seq<Card>)
    ensures |cards| == |rows|
    ensures forall i :: 0 <= i < |rows| ==> cards[i] == Render(rows[i], files)
  {
    cards := [];
    var i := 0;
    while i < |rows|
      invariant 0 <= i <= |rows|
      invariant |cards| == i
      invariant forall k :: 0 <= k < i ==> cards[k] == Render(rows[k], files)
    {
      cards := cards + [Render(rows[i], files)];
      i := i + 1;
    }
  }

  /** The outcome of get_updates. */
  datatype Retrieval =
    | NoUpdatesYet
    | Cards(cards: seq<Card>, menu: seq<Button>)

  /** get_updates: nothing but the "no updates" reply on an empty table; otherwise one card per
      shown row, then the main menu (which pops the caller's session). The tables are only read. */
  method GetUpdates(db: Database, sess: Sessions, cache: RoleCache, disk: Disk, uid: UserId, limit: nat)
    returns (res: Retrieval)
    modifies sess, cache
    ensures res.NoUpdatesYet? <==> Latest(db.updates, limit) == []
    ensures res.NoUpdatesYet? ==> sess.userState == old(sess.userState) && cache.entries == old(cache.entries)
    ensures res.Cards? ==>
              && |res.cards| == |Latest(db.updates, limit)| <= limit
              && (forall i :: 0 <= i < |res.cards| ==> res.cards[i] == Render(Latest(db.updates, limit)[i], disk.files))
              && res.menu == MainMenu(CachedRoles(old(cache.entries), db.users, uid))
              && sess.userState == old(sess.userState) - {uid}
              && cache.entries == old(cache.entries)[uid := CachedRoles(old(cache.entries), db.users, uid)]
  {
    var rows := Latest(db.updates, limit);
    if rows == [] {
      return NoUpdatesYet;
    }
    var cards := SendRows(rows, disk.files);
    var menu := ShowMainMenu(sess, cache, db, uid);
    res := Cards(cards, menu);
  }
}
