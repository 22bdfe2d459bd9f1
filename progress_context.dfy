/** Per-theme practice totals, the history of saved conversations, and the user's XP. */
module ProgressContext {
  import opened Optional
  import Seqs

  /** A `user_progress` row. `lastPracticed` is None when the row still holds the database's
      default. */
  datatype ThemeProgress = ThemeProgress(themeId: string, conversationsCount: int,
                                         totalMessages: int, correctMessages: int,
                                         totalTimeSeconds: int, lastPracticed: Option<int>)

  /** A `conversation_history` row; the message and correction payloads are not modelled. */
  datatype Conversation = Conversation(themeId: string, durationSeconds: int,
                                       accuracyScore: real, xpEarned: int)

  datatype Stats = Stats(messagesCount: int, correctCount: int, timeSeconds: int)

  /** How many conversations the history query loads. */
  const HistoryLimit: nat := 20

  // ---------------------------------------------------------------------------------------
  // Theme rows

  /** `userProgress.find(p => p.theme_id === themeId)`: the index of the first row of the theme. */
  function FindTheme(rows: seq<ThemeProgress>, themeId: string): (r: Option<nat>)
    ensures r.Some? ==> r.value < |rows| && rows[r.value].themeId == themeId
    ensures r.Some? ==> forall j :: 0 <= j < r.value ==> rows[j].themeId != themeId
    ensures r.None? <==> forall j :: 0 <= j < |rows| ==> rows[j].themeId != themeId
  {
    Seqs.FirstIndex(rows, (p: ThemeProgress) => p.themeId == themeId)
  }

  /** `getThemeStats`: the row for the theme, or none. */
  function ThemeStats(rows: seq<ThemeProgress>, themeId: string): (r: Option<ThemeProgress>)
    ensures r.Some? ==> r.value in rows && r.value.themeId == themeId
    ensures r.None? <==> forall p :: p in rows ==> p.themeId != themeId
  {
    match FindTheme(rows, themeId)
    case Some(i) => Some(rows[i])
    case None => None
  }

  /** The rows after `updateThemeProgress(themeId, stats)` at time `now`: the theme's first row
      counts one more conversation and adds the stats, or a new row is inserted. */
  function AfterThemeUpdate(rows: seq<ThemeProgress>, themeId: string, stats: Stats,
                            now: int): (r: seq<ThemeProgress>)
    ensures FindTheme(rows, themeId).Some? ==> |r| == |rows|
    ensures FindTheme(rows, themeId).None? ==> |r| == |rows| + 1 && r[..|rows|] == rows
  {
    match FindTheme(rows, themeId)
    case Some(i) =>
      var p := rows[i];
      rows[i := p.(conversationsCount := p.conversationsCount + 1,
                   totalMessages := p.totalMessages + stats.messagesCount,
                   correctMessages := p.correctMessages + stats.correctCount,
                   totalTimeSeconds := p.totalTimeSeconds + stats.timeSeconds,
                   lastPracticed := Some(now))]
    case None =>
      rows + [ThemeProgress(themeId, 1, stats.messagesCount, stats.correctCount, stats.timeSeconds, None)]
  }

  /** What `getThemeStats` gives after an update: one more conversation and the stats added to
      the old totals, or a first row holding exactly the stats. */
  lemma ThemeUpdateStats(rows: seq<ThemeProgress>, themeId: string, stats: Stats, now: int)
    ensures var after := ThemeStats(AfterThemeUpdate(rows, themeId, stats, now), themeId);
      after.Some? &&
      match ThemeStats(rows, themeId)
      case Some(p) =>
        after.value.conversationsCount == p.conversationsCount + 1
        && after.value.totalMessages == p.totalMessages + stats.messagesCount
        && after.value.correctMessages == p.correctMessages + stats.correctCount
        && after.value.totalTimeSeconds == p.totalTimeSeconds + stats.timeSeconds
        && after.value.lastPracticed == Some(now)
      case None =>
        after.value == ThemeProgress(themeId, 1, stats.messagesCount, stats.correctCount, stats.timeSeconds, None)
  {
    var r := AfterThemeUpdate(rows, themeId, stats, now);
    match FindTheme(rows, themeId)
    case Some(i) =>
      assert r[i].themeId == themeId;
      assert forall j :: 0 <= j < i ==> r[j] == rows[j];
      assert FindTheme(r, themeId) == Some(i);
    case None =>
      assert forall j :: 0 <= j < |rows| ==> r[j] == rows[j];
      assert r[|rows|].themeId == themeId;
      assert FindTheme(r, themeId) == Some(|rows|);
  }

  /** An update leaves every other theme's row as it was. */
  lemma ThemeUpdateOthers(rows: seq<ThemeProgress>, themeId: string, stats: Stats, now: int,
                          other: string)
    requires other != themeId
    ensures ThemeStats(AfterThemeUpdate(rows, themeId, stats, now), other) == ThemeStats(rows, other)
  {
    var r := AfterThemeUpdate(rows, themeId, stats, now);
    assert forall j :: 0 <= j < |rows| ==> (r[j].themeId == other <==> rows[j].themeId == other);
    assert forall j :: 0 <= j < |rows| && rows[j].themeId == other ==> r[j] == rows[j];
    match FindTheme(rows, other)
    case Some(i) =>
      assert FindTheme(r, other) == Some(i);
    case None =>
      assert FindTheme(r, other).None?;
  }

  function ConversationsOf(p: ThemeProgress): int {
    p.conversationsCount
  }

  /** Over all themes, an update counts exactly one more conversation. */
  lemma ThemeUpdateCountsOne(rows: seq<ThemeProgress>, themeId: string, stats: Stats, now: int)
    ensures Seqs.Sum(AfterThemeUpdate(rows, themeId, stats, now), ConversationsOf)
            == Seqs.Sum(rows, ConversationsOf) + 1
  {
    var r := AfterThemeUpdate(rows, themeId, stats, now);
    match FindTheme(rows, themeId)
    case Some(i) =>
      Seqs.SumUpdate(rows, i, r[i], ConversationsOf);
    case None =>
      Seqs.SumAppend(rows, [r[|rows|]], ConversationsOf);
      assert r == rows + [r[|rows|]];
      assert [r[|rows|]][..0] == [];
  }

  // ---------------------------------------------------------------------------------------
  // Conversation history and XP

  /** The history query: the `k` most recent conversations, newest first, of a table that
      holds them oldest first. */
  function Latest(all: seq<Conversation>, k: nat): (r: seq<Conversation>)
    ensures |r| == if |all| < k then |all| else k
    ensures forall i :: 0 <= i < |r| ==> r[i] == all[|all| - 1 - i]
  {
    if all == [] || k == 0 then []
    else [all[|all| - 1]] + Latest(all[..|all| - 1], k - 1)
  }

  function XpOf(c: Conversation): int {
    c.xpEarned
  }

  /** `getTotalXP`: the XP summed over the loaded history. */
  function TotalXp(history: seq<Conversation>): int {
    Seqs.Sum(history, XpOf)
  }

  /** Allowing one more row adds the next older conversation, if there is one. */
  lemma {:induction false} LatestGrow(all: seq<Conversation>, k: nat)
    ensures Latest(all, k + 1) == Latest(all, k) + (if |all| > k then [all[|all| - 1 - k]] else [])
  {
    if all != [] && k > 0 {
      var init := all[..|all| - 1];
      LatestGrow(init, k - 1);
    }
  }

  lemma SumCons(c: Conversation, rest: seq<Conversation>)
    ensures TotalXp([c] + rest) == c.xpEarned + TotalXp(rest)
  {
    Seqs.SumAppend([c], rest, XpOf);
    assert [c][..0] == [];
  }

  /** Saving a conversation moves the window: its XP comes in, and the XP of the conversation
      that drops out of the newest twenty goes out. */
  lemma SaveSlidesTotal(all: seq<Conversation>, c: Conversation)
    ensures TotalXp(Latest(all + [c], HistoryLimit)) ==
      TotalXp(Latest(all, HistoryLimit)) + c.xpEarned
      - (if |all| >= HistoryLimit then all[|all| - HistoryLimit].xpEarned else 0)
  {
    var full := all + [c];
    assert full[..|full| - 1] == all;
    assert Latest(full, HistoryLimit) == [c] + Latest(all, HistoryLimit - 1);
    SumCons(c, Latest(all, HistoryLimit - 1));
    LatestGrow(all, HistoryLimit - 1);
    if |all| >= HistoryLimit {
      Seqs.SumAppend(Latest(all, HistoryLimit - 1), [all[|all| - HistoryLimit]], XpOf);
    } else {
      assert Latest(all, HistoryLimit - 1) + [] == Latest(all, HistoryLimit - 1);
    }
  }

  /** With at most `k` conversations the history holds them all and its XP is their total. */
  lemma {:induction false} LatestAllTotal(all: seq<Conversation>, k: nat)
    requires |all| <= k
    ensures TotalXp(Latest(all, k)) == Seqs.Sum(all, XpOf)
  {
    if all != [] {
      var init := all[..|all| - 1];
      LatestAllTotal(init, k - 1);
      SumCons(all[|all| - 1], Latest(init, k - 1));
    }
  }

  /** Past twenty conversations the shown total misses the older ones: with the oldest worth
      some XP and none negative, it is smaller than the sum over the table. */
  lemma TotalXpUndercounts(all: seq<Conversation>)
    requires |all| > HistoryLimit
    requires forall i :: 0 <= i < |all| ==> all[i].xpEarned >= 0
    requires all[0].xpEarned > 0
    ensures TotalXp(Latest(all, HistoryLimit)) < Seqs.Sum(all, XpOf)
  {
    var cut := |all| - HistoryLimit;
    var older := all[..cut];
    var newer := all[cut..];
    assert all == older + newer;
    Seqs.SumAppend(older, newer, XpOf);
    LatestAllTotal(newer, HistoryLimit);
    LatestOfSuffix(all, HistoryLimit);
    OlderPositive(older);
  }

  /** The newest `k` rows of a table are the newest `k` of its last `k` rows. */
  lemma LatestOfSuffix(all: seq<Conversation>, k: nat)
    requires |all| >= k
    ensures Latest(all, k) == Latest(all[|all| - k..], k)
  {
    var newer := all[|all| - k..];
    var a := Latest(all, k);
    var b := Latest(newer, k);
    forall i | 0 <= i < k ensures a[i] == b[i] {
      assert newer[|newer| - 1 - i] == all[|all| - 1 - i];
    }
  }

  lemma {:induction false} OlderPositive(s: seq<Conversation>)
    requires s != [] && s[0].xpEarned > 0
    requires forall i :: 0 <= i < |s| ==> s[i].xpEarned >= 0
    ensures Seqs.Sum(s, XpOf) > 0
  {
    if |s| > 1 {
      var init := s[..|s| - 1];
      OlderPositive(init);
    }
  }

  // ---------------------------------------------------------------------------------------
  // The provider

  class Provider {
    /** Whether a user is signed in; the operations do nothing otherwise. */
    const signedIn: bool
    var userProgress: seq<ThemeProgress>
    /** The `conversation_history` table for this user, oldest first. */
    var conversations: seq<Conversation>
    /** The loaded history, newest first. */
    var conversationHistory: seq<Conversation>
    /** `users.total_xp`, when the user's row exists. */
    var totalXp: Option<int>

    ghost predicate Valid()
      reads this
    {
      conversationHistory == (if signedIn then Latest(conversations, HistoryLimit) else [])
    }

    /** A sign-in loads the rows; a signed-out provider holds none. */
    constructor (signedIn: bool, rows: seq<ThemeProgress>, conversations: seq<Conversation>,
                 totalXp: Option<int>)
      ensures Valid() && this.signedIn == signedIn
      ensures userProgress == (if signedIn then rows else [])
      ensures this.conversations == conversations && this.totalXp == totalXp
    {
      this.signedIn := signedIn;
      this.conversations := conversations;
      this.totalXp := totalXp;
      if signedIn {
        userProgress := rows;
        conversationHistory := Latest(conversations, HistoryLimit);
      } else {
        userProgress := [];
        conversationHistory := [];
      }
    }

    /** `saveConversation`: stores the conversation, raises `users.total_xp` by its XP when the
        row exists, and reloads the history. */
    method SaveConversation(c: Conversation)
      requires Valid()
      modifies this
      ensures Valid() && userProgress == old(userProgress)
      ensures signedIn ==> conversations == old(conversations) + [c]
      ensures signedIn && old(totalXp).Some? ==> totalXp == Some(old(totalXp).value + c.xpEarned)
      ensures !signedIn || old(totalXp).None? ==> totalXp == old(totalXp)
      ensures !signedIn ==> conversations == old(conversations)
    {
      if !signedIn {
        return;
      }
      conversations := conversations + [c];
      if totalXp.Some? {
        totalXp := Some(totalXp.value + c.xpEarned);
      }
      conversationHistory := Latest(conversations, HistoryLimit);
    }

    /** `updateThemeProgress`. */
    method UpdateThemeProgress(themeId: string, stats: Stats, now: int)
      requires Valid()
      modifies this
      ensures Valid()
      ensures userProgress == if signedIn then AfterThemeUpdate(old(userProgress), themeId, stats, now)
                              else old(userProgress)
      ensures conversations == old(conversations) && totalXp == old(totalXp)
    {
      if !signedIn {
        return;
      }
      var existing := FindTheme(userProgress, themeId);
      if existing.Some? {
        var p := userProgress[existing.value];
        userProgress := userProgress[existing.value := p.(
          conversationsCount := p.conversationsCount + 1,
          totalMessages := p.totalMessages + stats.messagesCount,
          correctMessages := p.correctMessages + stats.correctCount,
          totalTimeSeconds := p.totalTimeSeconds + stats.timeSeconds,
          lastPracticed := Some(now))];
      } else {
        userProgress := userProgress +
          [ThemeProgress(themeId, 1, stats.messagesCount, stats.correctCount, stats.timeSeconds, None)];
      }
    }

  }
}
