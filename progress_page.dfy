/** The progress page: totals over the theme rows, overall and per-theme accuracy, the
    duration shown for a conversation, and theme names and icons. */
module ProgressPage {
  import opened Optional
  import Seqs
  import JsMath
  import P = ProgressContext

  // ---------------------------------------------------------------------------------------
  // Totals over the theme rows

  function MessagesOf(p: P.ThemeProgress): int { p.totalMessages }
  function CorrectOf(p: P.ThemeProgress): int { p.correctMessages }
  function SecondsOf(p: P.ThemeProgress): int { p.totalTimeSeconds }

  function TotalConversations(rows: seq<P.ThemeProgress>): int { Seqs.Sum(rows, P.ConversationsOf) }
  function TotalMessages(rows: seq<P.ThemeProgress>): int { Seqs.Sum(rows, MessagesOf) }
  function TotalCorrect(rows: seq<P.ThemeProgress>): int { Seqs.Sum(rows, CorrectOf) }

  /** `Math.floor(total seconds / 60)`. */
  function TotalTimeMinutes(rows: seq<P.ThemeProgress>): (m: int)
    ensures m == Seqs.Sum(rows, SecondsOf) / 60
  {
    var secs := Seqs.Sum(rows, SecondsOf);
    FloorDivision(secs, 60);
    JsMath.Floor(secs as real / 60.0)
  }

  /** On a positive divisor the floor of the exact quotient is Dafny's integer division. */
  lemma FloorDivision(a: int, b: int)
    requires b > 0
    ensures JsMath.Floor(a as real / b as real) == a / b
  {
    var q := a / b;
    var r := a % b;
    assert a == q * b + r && 0 <= r < b;
    assert a as real / b as real == q as real + r as real / b as real;
    assert 0.0 <= r as real / b as real < 1.0;
  }

  /** The overall accuracy: 0 with no messages, otherwise the rounded percentage. */
  function OverallAccuracy(rows: seq<P.ThemeProgress>): int {
    JsMath.Percent(TotalCorrect(rows), TotalMessages(rows))
  }

  /** A theme card's accuracy, by the same rule. */
  function ThemeAccuracy(p: P.ThemeProgress): int {
    JsMath.Percent(p.correctMessages, p.totalMessages)
  }

  predicate RowSane(p: P.ThemeProgress) {
    0 <= p.correctMessages <= p.totalMessages
  }

  lemma {:induction false} SumsOrdered(rows: seq<P.ThemeProgress>)
    requires forall i :: 0 <= i < |rows| ==> RowSane(rows[i])
    ensures 0 <= TotalCorrect(rows) <= TotalMessages(rows)
  {
    if rows != [] {
      SumsOrdered(rows[..|rows| - 1]);
    }
  }

  /** With no row counting more correct messages than messages, every accuracy shown lies
      between 0 and 100. */
  lemma AccuracyBounds(rows: seq<P.ThemeProgress>)
    requires forall i :: 0 <= i < |rows| ==> RowSane(rows[i])
    ensures 0 <= OverallAccuracy(rows) <= 100
    ensures forall i :: 0 <= i < |rows| ==> 0 <= ThemeAccuracy(rows[i]) <= 100
  {
    SumsOrdered(rows);
    JsMath.PercentBounds(TotalCorrect(rows), TotalMessages(rows));
    forall i | 0 <= i < |rows| ensures 0 <= ThemeAccuracy(rows[i]) <= 100 {
      JsMath.PercentBounds(rows[i].correctMessages, rows[i].totalMessages);
    }
  }

  /** With a single theme the overall accuracy is that theme's. */
  lemma SingleThemeAccuracy(p: P.ThemeProgress)
    ensures OverallAccuracy([p]) == ThemeAccuracy(p)
  {
    assert [p][..0] == [];
    assert TotalCorrect([p]) == Seqs.Sum([p][..0], CorrectOf) + CorrectOf(p);
    assert TotalMessages([p]) == Seqs.Sum([p][..0], MessagesOf) + MessagesOf(p);
  }

  /** What a theme update does to the page's totals: one more conversation, and the stats
      added to the message, correct and second totals. */
  lemma TotalsAfterUpdate(rows: seq<P.ThemeProgress>, themeId: string, stats: P.Stats, now: int)
    ensures var r := P.AfterThemeUpdate(rows, themeId, stats, now);
      TotalConversations(r) == TotalConversations(rows) + 1
      && TotalMessages(r) == TotalMessages(rows) + stats.messagesCount
      && TotalCorrect(r) == TotalCorrect(rows) + stats.correctCount
      && Seqs.Sum(r, SecondsOf) == Seqs.Sum(rows, SecondsOf) + stats.timeSeconds
  {
    P.ThemeUpdateCountsOne(rows, themeId, stats, now);
    var r := P.AfterThemeUpdate(rows, themeId, stats, now);
    match P.FindTheme(rows, themeId)
    case Some(i) =>
      Seqs.SumUpdate(rows, i, r[i], MessagesOf);
      Seqs.SumUpdate(rows, i, r[i], CorrectOf);
      Seqs.SumUpdate(rows, i, r[i], SecondsOf);
    case None =>
      var added := r[|rows|];
      assert r == rows + [added];
      assert [added][..0] == [];
      Seqs.SumAppend(rows, [added], MessagesOf);
      Seqs.SumAppend(rows, [added], CorrectOf);
      Seqs.SumAppend(rows, [added], SecondsOf);
  }

  // ---------------------------------------------------------------------------------------
  // Per-theme average time

  /** `Math.round(total_time_seconds / 60 / conversations_count)`; without conversations the
      division gives no finite number. */
  function AvgTimeMinutes(p: P.ThemeProgress): (r: Option<int>)
    ensures r.Some? <==> p.conversationsCount != 0
  {
    if p.conversationsCount == 0 then None
    else Some(JsMath.Round(p.totalTimeSeconds as real / 60.0 / p.conversationsCount as real))
  }

  predicate CountsPositive(rows: seq<P.ThemeProgress>) {
    forall i :: 0 <= i < |rows| ==> rows[i].conversationsCount > 0
  }

  /** Rows made by theme updates always count a conversation, so every card has an average. */
  lemma UpdateKeepsCountsPositive(rows: seq<P.ThemeProgress>, themeId: string, stats: P.Stats, now: int)
    requires CountsPositive(rows)
    ensures CountsPositive(P.AfterThemeUpdate(rows, themeId, stats, now))
    ensures forall p :: p in P.AfterThemeUpdate(rows, themeId, stats, now) ==> AvgTimeMinutes(p).Some?
  {
  }

  // ---------------------------------------------------------------------------------------
  // A conversation's duration

  /** The JavaScript `%`: the remainder takes the sign of the dividend. */
  function JsRemainder(a: int, b: int): (r: int)
    requires b > 0
    ensures a >= 0 ==> r == a % b
    ensures -b < r < b
  {
    if a >= 0 then a % b else -((-a) % b)
  }

  /** The minutes and seconds shown for a duration: `Math.floor(d / 60)` and `d % 60`. */
  function ShownDuration(d: int): (r: (int, int)) {
    (JsMath.Floor(d as real / 60.0), JsRemainder(d, 60))
  }

  /** For a non-negative duration the two parts recombine to it and the seconds stay below 60. */
  lemma DurationRecombines(d: int)
    requires d >= 0
    ensures var (m, s) := ShownDuration(d); 60 * m + s == d && 0 <= s < 60
  {
    FloorDivision(d, 60);
  }

  // ---------------------------------------------------------------------------------------
  // Theme names and icons

  datatype ThemeInfo = ThemeInfo(id: string, name: string, icon: string)

  /** The icon for a theme missing from the theme list: the books emoji. */
  const FallbackIcon := "\U{1F4DA}"

  /** The fallback icon as the source file spells it: four characters that the books emoji's
      UTF-8 bytes become when read as Windows-1252. */
  const FallbackIconAsWritten := "\U{F0}\U{178}\U{201C}\U{161}"

  function FindThemeInfo(themes: seq<ThemeInfo>, id: string): (r: Option<nat>)
    ensures r.Some? ==> r.value < |themes| && themes[r.value].id == id
    ensures r.None? <==> forall j :: 0 <= j < |themes| ==> themes[j].id != id
  {
    Seqs.FirstIndex(themes, (t: ThemeInfo) => t.id == id)
  }

  /** `getThemeName`: the theme's name, or the id itself for an unknown theme. */
  function ThemeName(themes: seq<ThemeInfo>, id: string): (r: string)
    ensures (forall j :: 0 <= j < |themes| ==> themes[j].id != id) ==> r == id
    ensures (exists j :: 0 <= j < |themes| && themes[j].id == id) ==>
      exists j :: 0 <= j < |themes| && themes[j].id == id && r == themes[j].name
  {
    match FindThemeInfo(themes, id)
    case Some(i) => themes[i].name
    case None => id
  }

  /** `getThemeIcon`: the theme's icon, or the fallback. */
  function ThemeIcon(themes: seq<ThemeInfo>, id: string): (r: string)
    ensures (forall j :: 0 <= j < |themes| ==> themes[j].id != id) ==> r == FallbackIcon
    ensures (exists j :: 0 <= j < |themes| && themes[j].id == id) ==>
      exists j :: 0 <= j < |themes| && themes[j].id == id && r == themes[j].icon
  {
    match FindThemeInfo(themes, id)
    case Some(i) => themes[i].icon
    case None => FallbackIcon
  }

  /** `getThemeIcon` as the source file has it. */
  function ThemeIconAsWritten(themes: seq<ThemeInfo>, id: string): string {
    match FindThemeInfo(themes, id)
    case Some(i) => themes[i].icon
    case None => FallbackIconAsWritten
  }

  /** The UTF-8 encoding of a code point outside the Basic Multilingual Plane. */
  function Utf8Four(c: int): (bytes: seq<int>)
    requires 0x10000 <= c <= 0x10FFFF
    ensures |bytes| == 4 && forall i :: 0 <= i < 4 ==> 0 <= bytes[i] < 256
  {
    [0xF0 + c / 0x40000, 0x80 + (c / 0x1000) % 64, 0x80 + (c / 64) % 64, 0x80 + c % 64]
  }

  /** Windows-1252 decoding of one byte; the five unassigned bytes keep their value. */
  function Cp1252(b: int): char
    requires 0 <= b < 256
  {
    if b == 0x80 then '\U{20AC}' else if b == 0x82 then '\U{201A}' else if b == 0x83 then '\U{192}'
    else if b == 0x84 then '\U{201E}' else if b == 0x85 then '\U{2026}' else if b == 0x86 then '\U{2020}'
    else if b == 0x87 then '\U{2021}' else if b == 0x88 then '\U{2C6}' else if b == 0x89 then '\U{2030}'
    else if b == 0x8A then '\U{160}' else if b == 0x8B then '\U{2039}' else if b == 0x8C then '\U{152}'
    else if b == 0x8E then '\U{17D}' else if b == 0x91 then '\U{2018}' else if b == 0x92 then '\U{2019}'
    else if b == 0x93 then '\U{201C}' else if b == 0x94 then '\U{201D}' else if b == 0x95 then '\U{2022}'
    else if b == 0x96 then '\U{2013}' else if b == 0x97 then '\U{2014}' else if b == 0x98 then '\U{2DC}'
    else if b == 0x99 then '\U{2122}' else if b == 0x9A then '\U{161}' else if b == 0x9B then '\U{203A}'
    else if b == 0x9C then '\U{153}' else if b == 0x9E then '\U{17E}' else if b == 0x9F then '\U{178}'
    else b as char
  }

  /** The as-written fallback is the books emoji mis-decoded: an unknown theme shows four
      stray characters instead of one emoji. */
  lemma FallbackIconMisdecoded(themes: seq<ThemeInfo>, id: string)
    requires forall j :: 0 <= j < |themes| ==> themes[j].id != id
    ensures var bytes := Utf8Four(0x1F4DA);
      FallbackIconAsWritten == [Cp1252(bytes[0]), Cp1252(bytes[1]), Cp1252(bytes[2]), Cp1252(bytes[3])]
    ensures ThemeIconAsWritten(themes, id) == FallbackIconAsWritten
    ensures |ThemeIconAsWritten(themes, id)| == 4 && ThemeIconAsWritten(themes, id) != FallbackIcon
  {
    var bytes := Utf8Four(0x1F4DA);
    assert bytes == [0xF0, 0x9F, 0x93, 0x9A];
  }

  /** The corrected fallback is the one character the as-written text was decoded from. */
  lemma FallbackIconIsOneEmoji(themes: seq<ThemeInfo>, id: string)
    requires forall j :: 0 <= j < |themes| ==> themes[j].id != id
    ensures ThemeIcon(themes, id) == FallbackIcon
    ensures |FallbackIcon| == 1 && FallbackIcon[0] as int == 0x1F4DA
    ensures var bytes := Utf8Four(FallbackIcon[0] as int);
      [Cp1252(bytes[0]), Cp1252(bytes[1]), Cp1252(bytes[2]), Cp1252(bytes[3])] == FallbackIconAsWritten
  {
    var bytes := Utf8Four(0x1F4DA);
    assert bytes == [0xF0, 0x9F, 0x93, 0x9A];
  }
}
