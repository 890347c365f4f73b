/** The Discord report of `index.js`: `truncateNameToInitialLast` and
    `buildTcrRaceMessage`, which render a parsed race summary as a title with
    a glyph cluster, four metadata lines, an info line and a fenced
    fixed-width table with one row per podium entry. */
module RaceMessage {
  import opened Text
  import opened ParseDetailedResult

  // ---------------------------------------------------------------------
  // Glyphs and fixed texts

  /** U+1F525 fire. */
  const Fire: Str := [0xD83D, 0xDD25]
  /** U+1F327 cloud with rain, then the variation selector U+FE0F. */
  const Rain: Str := [0xD83C, 0xDF27, 0xFE0F]
  /** U+1F3C6 trophy. */
  const Trophy: Str := [0xD83C, 0xDFC6]

  /** `secondPlaceGapSec` when P2 is not on the leader's lap (`99_999`). */
  const NoGap: real := 99999.0
  /** The strength of field above which the trophy is shown. */
  const TrophySof := 4000

  const TitleStart: Str := Ascii("# Week ")
  const TitleEnd: Str := Ascii(" Race Result")
  const SplitStart: Str := Ascii("Split #")
  const UnknownStart: Str := Ascii("???")
  const SofLabel: Str := Ascii("SoF: ")
  const GridLabel: Str := Ascii(" | Grid: ")
  const LapsLabel: Str := Ascii(" | Laps: ")
  const WetLabel: Str := Ascii(" | Wet: ")
  const Yes: Str := Ascii("Yes")
  const No: Str := Ascii("No")
  const Fence: Str := Ascii("```")
  const Header: Str := Ascii("Pos  Gap    Driver            Pts")
  const Dashes: Str := Ascii("--------------------------------------")
  const LapSuffix: CodeUnit := 'L' as int
  const PositionPrefix: CodeUnit := 'P' as int

  /** Widths of the position, gap and driver columns. */
  const PosWidth := 3
  const GapWidth := 6
  const DriverWidth := 19

  // ---------------------------------------------------------------------
  // Names

  /** `truncateNameToInitialLast(fullName)`: `""` for an empty name; the name
      itself when its trimmed text is a single token (or empty); otherwise the
      upper-cased first unit of the trimmed name, `". "` and the last token. */
  function TruncateNameToInitialLast(fullName: Str): (r: Str)
    ensures fullName == [] ==> r == []
    ensures NoWhitespace(Trim(fullName)) ==> r == fullName
    ensures !NoWhitespace(Trim(fullName)) ==>
      var t := Trim(fullName);
      r == [UpperUnit(t[0]), Dot, Space] + LastPiece(t)
  {
    if fullName == [] then []
    else
      var t := Trim(fullName);
      var parts := SplitWs(t);
      if |parts| < 2 then fullName
      else
        FirstAndLastToken(t);
        ToUpper(Prefix(parts[0], 1)) + [Dot] + [Space] + parts[|parts| - 1]
  }

  /** For a string that starts with a non-whitespace unit and contains
      whitespace, the split has at least two tokens, the first token starts
      with the first unit and the last token is `LastPiece`. */
  lemma FirstAndLastToken(t: Str)
    requires t != [] && !IsWhitespace(t[0]) && !NoWhitespace(t)
    ensures var parts := SplitWs(t);
      |parts| >= 2 && ToUpper(Prefix(parts[0], 1)) == [UpperUnit(t[0])] &&
      parts[|parts| - 1] == LastPiece(t)
  {
    SplitWsLast(t);
    var parts := SplitWs(t);
    assert parts[0][0] == t[0];
  }

  /** Upper-casing never turns a unit into whitespace, and is idempotent. */
  lemma UpperUnitFacts(u: CodeUnit)
    ensures IsWhitespace(UpperUnit(u)) <==> IsWhitespace(u)
    ensures UpperUnit(UpperUnit(u)) == UpperUnit(u)
  {
  }

  /** The last piece of `a + " " + w` is `w` when `w` has no whitespace. */
  lemma LastPieceAfterSpace(a: Str, w: Str)
    requires NoWhitespace(w)
    ensures LastPiece(a + [Space] + w) == w
  {
    var s := a + [Space] + w;
    var m := |a| + 1;
    forall j | m <= j < |s| ensures !IsWhitespace(s[j]) {
      assert s[j] == w[j - m];
    }
    RunStartAt(s, m, |s|);
    assert s[m..] == w;
  }

  /** A non-whitespace run that follows a whitespace unit at `m - 1` starts at `m`. */
  lemma {:induction false} RunStartAt(s: Str, m: nat, n: nat)
    requires 0 < m <= n <= |s| && IsWhitespace(s[m - 1])
    requires forall j :: m <= j < n ==> !IsWhitespace(s[j])
    ensures RunStart(s, n) == m
    decreases n
  {
    if n > m {
      RunStartAt(s, m, n - 1);
    }
  }

  /** An abbreviation `u + ". " + last` abbreviates to itself with `u` upper-cased. */
  lemma AbbreviationOfAbbreviation(u: CodeUnit, last: Str)
    requires !IsWhitespace(u) && last != [] && NoWhitespace(last)
    ensures TruncateNameToInitialLast([u, Dot, Space] + last) == [UpperUnit(u), Dot, Space] + last
  {
    var r := [u, Dot, Space] + last;
    assert r == [u, Dot] + [Space] + last;
    LastPieceAfterSpace([u, Dot], last);
    assert r[|r| - 1] == last[|last| - 1];
    assert r != [] && !IsWhitespace(r[0]) && !IsWhitespace(r[|r| - 1]);
    assert Trim(r) == r;
    assert r[2] == Space;
  }

  /** Abbreviating an abbreviated name changes nothing. */
  lemma TruncateIdempotent(name: Str)
    ensures TruncateNameToInitialLast(TruncateNameToInitialLast(name)) == TruncateNameToInitialLast(name)
  {
    var t := Trim(name);
    if !NoWhitespace(t) {
      UpperUnitFacts(t[0]);
      AbbreviationOfAbbreviation(UpperUnit(t[0]), LastPiece(t));
    }
  }

  /** Words joined by single spaces abbreviate to the upper-cased first unit
      of the first word, `". "` and the last word. */
  lemma TruncateWords(ws: seq<Str>)
    requires |ws| >= 2 && Words(ws)
    ensures TruncateNameToInitialLast(Join(ws, [Space])) ==
      [UpperUnit(ws[0][0]), Dot, Space] + ws[|ws| - 1]
  {
    var s := Join(ws, [Space]);
    JoinEnds(ws);
    assert s[0] == ws[0][0];
    assert s == ws[0] + [Space] + Join(ws[1..], [Space]);
    assert s[|ws[0]|] == Space;
    JoinSnoc(ws, [Space]);
    LastPieceAfterSpace(Join(ws[..|ws| - 1], [Space]), ws[|ws| - 1]);
    TruncateTrimmed(s);
  }

  /** A name with no surrounding whitespace and at least one inner
      whitespace unit is abbreviated from its first unit and last piece. */
  lemma TruncateTrimmed(s: Str)
    requires s != [] && !IsWhitespace(s[0]) && !IsWhitespace(s[|s| - 1]) && !NoWhitespace(s)
    ensures TruncateNameToInitialLast(s) == [UpperUnit(s[0]), Dot, Space] + LastPiece(s)
  {
    assert Trim(s) == s;
  }

  /** A single word is kept as it is. */
  lemma TruncateWord(w: Str)
    requires w != [] && NoWhitespace(w)
    ensures TruncateNameToInitialLast(w) == w
  {
    assert Trim(w) == w;
  }

  /** The regular-expression test on the first token: its character class
      holds the units 0xD83C..0xDBFF and 0xDC00..0xDFFF, two adjacent ranges,
      so it matches when some unit of `s` lies in 0xD83C..0xDFFF. */
  predicate HasFlagUnit(s: Str) {
    exists i :: 0 <= i < |s| && 0xD83C <= s[i] <= 0xDFFF
  }

  /** The name shown in the table: when the name splits into more than one
      token and the first token holds a unit in 0xD83C..0xDFFF (a flag emoji), that
      token, a space and the abbreviation of the remaining tokens joined by
      spaces; otherwise the abbreviation of the whole name. */
  function DriverDisplayName(name: Str): (r: Str)
    ensures !HasFlagUnit(name) ==> r == TruncateNameToInitialLast(name)
  {
    var parts := SplitWs(name);
    if |parts| > 1 && HasFlagUnit(parts[0]) then
      FlagTokenFromName(name);
      parts[0] + [Space] + TruncateNameToInitialLast(Join(parts[1..], [Space]))
    else TruncateNameToInitialLast(name)
  }

  /** A flag unit in the first token is a flag unit of the name. */
  lemma FlagTokenFromName(name: Str)
    requires HasFlagUnit(SplitWs(name)[0])
    ensures HasFlagUnit(name)
  {
    var p := SplitWs(name)[0];
    var i :| 0 <= i < |p| && 0xD83C <= p[i] <= 0xDFFF;
    assert p[i] == name[i];
  }

  /** A flag token followed by words: the flag is kept and the words are
      abbreviated. */
  lemma FlaggedName(flag: Str, ws: seq<Str>)
    requires flag != [] && NoWhitespace(flag) && HasFlagUnit(flag)
    requires |ws| >= 1 && Words(ws)
    ensures DriverDisplayName(Join([flag] + ws, [Space])) ==
      flag + [Space] + TruncateNameToInitialLast(Join(ws, [Space]))
  {
    var ps := [flag] + ws;
    assert ps[1..] == ws;
    assert Words(ps) by {
      forall k | 0 <= k < |ps| ensures ps[k] != [] && NoWhitespace(ps[k]) {
        if k > 0 { assert ps[k] == ws[k - 1]; }
      }
    }
    SplitJoin(ps);
  }

  /** Showing a shown flagged name again changes nothing: the flag stays in
      front and the abbreviation is already abbreviated. */
  lemma {:induction false} FlaggedIdempotent(flag: Str, ws: seq<Str>)
    requires flag != [] && NoWhitespace(flag) && HasFlagUnit(flag)
    requires |ws| >= 1 && Words(ws)
    ensures var d := DriverDisplayName(Join([flag] + ws, [Space]));
      DriverDisplayName(d) == d
  {
    if |ws| == 1 {
      var w := ws[0];
      FlaggedName(flag, ws);
      assert Join(ws, [Space]) == w;
      TruncateWord(w);
      assert [flag] + ws == [flag, w];
    } else {
      var u := UpperUnit(ws[0][0]);
      UpperUnitFacts(ws[0][0]);
      FlaggedOnce(flag, ws);
      FlaggedAbbreviation(flag, u, ws[|ws| - 1]);
    }
  }

  /** A flag token followed by two or more words is shown as the flag token,
      the abbreviated initial and the last word, joined by spaces. */
  lemma {:induction false} FlaggedOnce(flag: Str, ws: seq<Str>)
    requires flag != [] && NoWhitespace(flag) && HasFlagUnit(flag)
    requires |ws| >= 2 && Words(ws)
    ensures DriverDisplayName(Join([flag] + ws, [Space])) ==
      Join([flag, [UpperUnit(ws[0][0]), Dot], ws[|ws| - 1]], [Space])
  {
    var u, last := UpperUnit(ws[0][0]), ws[|ws| - 1];
    FlaggedName(flag, ws);
    TruncateWords(ws);
    JoinThree(flag, [u, Dot], last);
    ConsThree(u, Dot, Space, last);
  }

  /** A shown flagged abbreviation `flag + " " + u + ". " + last` is shown as
      itself when `u` is already upper-case. */
  lemma {:induction false} FlaggedAbbreviation(flag: Str, u: CodeUnit, last: Str)
    requires flag != [] && NoWhitespace(flag) && HasFlagUnit(flag)
    requires !IsWhitespace(u) && UpperUnit(u) == u && last != [] && NoWhitespace(last)
    ensures var d := Join([flag, [u, Dot], last], [Space]);
      DriverDisplayName(d) == d
  {
    var abbr: Str := [u, Dot];
    WordsTwo(abbr, last);
    FlaggedName(flag, [abbr, last]);
    AbbreviationOfAbbreviation(u, last);
    JoinThree(flag, abbr, last);
    ConsThree(u, Dot, Space, last);
    assert [flag] + [abbr, last] == [flag, abbr, last];
  }

  /** Two words make a list of words. */
  lemma WordsTwo(a: Str, b: Str)
    requires a != [] && NoWhitespace(a) && b != [] && NoWhitespace(b)
    ensures Words([a, b])
  {
  }

  /** Three parts joined by a space. */
  lemma JoinThree(a: Str, b: Str, c: Str)
    ensures Join([a, b], [Space]) == a + [Space] + b
    ensures Join([a, b, c], [Space]) == a + [Space] + (b + [Space] + c)
  {
    assert [a, b][1..] == [b];
    assert [b, c][1..] == [c];
    assert Join([b, c], [Space]) == b + [Space] + c;
    assert [a, b, c][1..] == [b, c];
    assert Join([a, b, c], [Space]) == a + [Space] + Join([b, c], [Space]);
  }

  /** Three leading elements, regrouped. */
  lemma ConsThree<T>(x: T, y: T, z: T, rest: seq<T>)
    ensures [x, y, z] + rest == [x, y] + [z] + rest
  {
  }

  /** `finalName.padEnd(19).slice(0, 19)`: exactly 19 units, the name cut or
      padded with spaces. */
  function DriverColumn(name: Str): (r: Str)
    ensures |r| == DriverWidth
    ensures |name| >= DriverWidth ==> r == name[..DriverWidth]
    ensures |name| < DriverWidth ==> r[..|name|] == name && forall i :: |name| <= i < DriverWidth ==> r[i] == Space
  {
    Prefix(PadEnd(name, DriverWidth), DriverWidth)
  }

  // ---------------------------------------------------------------------
  // The glyph cluster

  /** P2 finished on the leader's lap less than a second behind. */
  predicate CloseFinish(podium: seq<PodiumEntry>) {
    |podium| > 1 && podium[0].lapsComplete == podium[1].lapsComplete && podium[1].marginRaw < 1.0
  }

  /** `secondPlaceGapSec`.  `podium[1].marginRaw || 0` replaces only a zero
      margin by zero, so it is the margin itself. */
  function SecondPlaceGap(podium: seq<PodiumEntry>): (gap: real)
    ensures gap < 1.0 <==> CloseFinish(podium)
  {
    if |podium| > 1 && podium[0].lapsComplete == podium[1].lapsComplete then podium[1].marginRaw
    else NoGap
  }

  /** The glyph cluster: fire for a close finish, then rain when wet and the
      race's sky otherwise, then the trophy when the strength of field is
      above 4000. */
  function Emojis(s: RaceSummary): (r: Str)
    ensures r != []
    ensures |r| >= 2 && r[..2] == Fire <==> CloseFinish(s.podium)
    ensures |r| >= 2 && r[|r| - 2..] == Trophy <==> s.sof > TrophySof
    ensures 0xDF27 in r <==> s.isWet
    ensures r == (if CloseFinish(s.podium) then Fire else [])
                 + (if s.isWet then Rain else SkyGlyph(s.weatherCondition))
                 + (if s.sof > TrophySof then Trophy else [])
  {
    var fire := if SecondPlaceGap(s.podium) < 1.0 then Fire else [];
    var weather := if s.isWet then Rain else SkyGlyph(s.weatherCondition);
    var trophy := if s.sof > TrophySof then Trophy else [];
    var r := fire + weather + trophy;
    assert 0xDF27 !in fire && 0xDF27 !in trophy;
    assert fire == [] ==> r[0] == weather[0];
    assert fire != [] ==> r[..2] == fire;
    assert trophy == [] ==> r[|r| - 1] == weather[|weather| - 1];
    assert trophy != [] ==> r[|r| - 2..] == trophy;
    r
  }

  /** The title: `# Week {raceWeek} Race Result`, a space and the cluster
      (the cluster is never empty, so the `if (emojis)` test always passes). */
  function TitleLine(s: RaceSummary): (r: Str)
    ensures var base := TitleStart + IntToStr(s.raceWeek) + TitleEnd;
      |r| > |base| + 1 && r[..|base|] == base && r[|base|] == Space && r[|base| + 1..] == Emojis(s)
  {
    var base := TitleStart + IntToStr(s.raceWeek) + TitleEnd;
    var r := base + [Space] + Emojis(s);
    assert r[..|base|] == base;
    assert r[|base| + 1..] == Emojis(s);
    r
  }

  // ---------------------------------------------------------------------
  // The gap column

  /** `x.toFixed(1)` for `x >= 0`: the tenths nearest to `x` (a tie goes to
      the larger), as digits, a dot and one digit. */
  function ToFixed1(x: real): (r: Str)
    requires x >= 0.0
    ensures |r| >= 3 && r[|r| - 2] == Dot && IsDigit(r[|r| - 1])
    ensures forall i :: 0 <= i < |r| - 2 ==> IsDigit(r[i])
    ensures |r| > 3 ==> r[0] != '0' as int
    ensures var t := Tenths(r); t as real - 0.5 <= x * 10.0 < t as real + 0.5
  {
    var n := Round(x * 10.0);
    var r := NatToStr(n / 10) + [Dot, Digit(n % 10)];
    assert r[..|r| - 2] == NatToStr(n / 10);
    NatToStrRoundTrip(n / 10);
    r
  }

  /** The number of tenths a `toFixed(1)` string denotes. */
  function Tenths(r: Str): int
    requires |r| >= 2
  {
    DigitsValue(r[..|r| - 2]) * 10 + (r[|r| - 1] - '0' as int)
  }

  /** The leader's laps (`podium[0].lapsComplete`, or 0 for an empty podium). */
  function LeaderLaps(podium: seq<PodiumEntry>): int {
    if |podium| > 0 then podium[0].lapsComplete else 0
  }

  /** The gap shown for the entry at `idx`: nothing for the leader, `-{n}L`
      for a driver `n` laps down, else the margin (clamped at 0) to one decimal. */
  function GapDisplay(p: PodiumEntry, idx: nat, leaderLaps: int): (r: Str)
    ensures r == [] <==> idx == 0
    ensures idx > 0 && leaderLaps - p.lapsComplete > 0 ==>
      |r| >= 3 && r[0] == Minus && r[|r| - 1] == LapSuffix &&
      DigitsValue(r[1..|r| - 1]) == leaderLaps - p.lapsComplete
    ensures idx > 0 && leaderLaps - p.lapsComplete > 0 ==>
      r == [Minus] + NatToStr(leaderLaps - p.lapsComplete) + [LapSuffix]
    ensures idx > 0 && leaderLaps - p.lapsComplete <= 0 ==>
      r == ToFixed1(if p.marginRaw > 0.0 then p.marginRaw else 0.0)
  {
    if idx == 0 then []
    else
      var lapsBehind := leaderLaps - p.lapsComplete;
      if lapsBehind > 0 then
        var r := [Minus] + IntToStr(lapsBehind) + [LapSuffix];
        assert r[1..|r| - 1] == NatToStr(lapsBehind);
        NatToStrRoundTrip(lapsBehind);
        r
      else
        ToFixed1(if p.marginRaw > 0.0 then p.marginRaw else 0.0)
  }

  // ---------------------------------------------------------------------
  // The table

  /** One table row: `P{position}` padded to 3, the gap padded to 6, the
      19-unit driver column and the points, separated by spaces. */
  function TableRow(p: PodiumEntry, idx: nat, leaderLaps: int): Str {
    PadEnd([PositionPrefix] + IntToStr(p.position), PosWidth) + [Space]
    + PadEnd(GapDisplay(p, idx, leaderLaps), GapWidth) + [Space]
    + DriverColumn(DriverDisplayName(p.driverName)) + [Space]
    + IntToStr(p.points) + [Newline]
  }

  /** One row per podium entry, in podium order. */
  function Rows(podium: seq<PodiumEntry>, leaderLaps: int): (r: seq<Str>)
    ensures |r| == |podium|
  {
    seq(|podium|, i requires 0 <= i < |podium| => TableRow(podium[i], i, leaderLaps))
  }

  /** The rows of the first `n` podium entries, written one after another. */
  function RowsUpTo(podium: seq<PodiumEntry>, leaderLaps: int, n: nat): Str
    requires n <= |podium|
  {
    Concat(Rows(podium, leaderLaps)[..n])
  }

  /** The opening fence, the header and the dash line. */
  function TableHead(): Str {
    Fence + [Newline] + Header + [Newline] + Dashes + [Newline]
  }

  function Table(podium: seq<PodiumEntry>): Str {
    TableHead() + RowsUpTo(podium, LeaderLaps(podium), |podium|) + Fence
  }

  /** The row layout: with a position of at most two digits and a gap of at
      most six units, the columns start at fixed offsets 0, 4, 11 and 31,
      separated by single spaces, and the row ends with a newline. */
  lemma RowLayout(p: PodiumEntry, idx: nat, leaderLaps: int)
    requires 0 <= p.position < 100 && |GapDisplay(p, idx, leaderLaps)| <= GapWidth
    ensures var row := TableRow(p, idx, leaderLaps);
      |row| > 32 &&
      row[..3] == PadEnd([PositionPrefix] + IntToStr(p.position), PosWidth) && row[3] == Space &&
      row[4..10] == PadEnd(GapDisplay(p, idx, leaderLaps), GapWidth) && row[10] == Space &&
      row[11..30] == DriverColumn(DriverDisplayName(p.driverName)) && row[30] == Space &&
      row[31..|row| - 1] == IntToStr(p.points) && row[|row| - 1] == Newline
  {
    if p.position >= 10 {
      assert NatToStr(p.position) == NatToStr(p.position / 10) + [Digit(p.position % 10)];
    }
    RowParts(PadEnd([PositionPrefix] + IntToStr(p.position), PosWidth),
             PadEnd(GapDisplay(p, idx, leaderLaps), GapWidth),
             DriverColumn(DriverDisplayName(p.driverName)), IntToStr(p.points));
  }

  /** Where the four fields of a row sit when the first three are 3, 6 and 19 units wide. */
  lemma RowParts(a: Str, b: Str, c: Str, d: Str)
    requires |a| == 3 && |b| == 6 && |c| == 19
    ensures var row := a + [Space] + b + [Space] + c + [Space] + d + [Newline];
      |row| == 32 + |d| && row[..3] == a && row[3] == Space && row[4..10] == b && row[10] == Space &&
      row[11..30] == c && row[30] == Space && row[31..|row| - 1] == d && row[|row| - 1] == Newline
  {
    var row := a + [Space] + b + [Space] + c + [Space] + d + [Newline];
    assert row == a + ([Space] + b + [Space] + c + [Space] + d + [Newline]);
    assert row[4..10] == b by {
      forall i | 0 <= i < 6 ensures row[4 + i] == b[i] { }
    }
    assert row[11..30] == c by {
      forall i | 0 <= i < 19 ensures row[11 + i] == c[i] { }
    }
    assert row[31..|row| - 1] == d by {
      forall i | 0 <= i < |d| ensures row[31 + i] == d[i] { }
    }
  }

  /** The table opens with the fence, header and dash lines and closes with the fence. */
  lemma TableEnds(podium: seq<PodiumEntry>)
    ensures var t := Table(podium);
      |t| >= |TableHead()| + |Fence| && t[..|TableHead()|] == TableHead() && t[|t| - |Fence|..] == Fence
  {
    Framed(TableHead(), RowsUpTo(podium, LeaderLaps(podium), |podium|), Fence);
  }

  // ---------------------------------------------------------------------
  // The message

  /** `Split #{splitNumber}`. */
  function SplitLine(splitNumber: int): (r: Str)
    ensures |r| > |SplitStart| && r[..|SplitStart|] == SplitStart
    ensures r[|SplitStart|..] == IntToStr(splitNumber)
  {
    SplitStart + IntToStr(splitNumber)
  }

  /** The formatted start time, or `???` when there is none. */
  function StartLine(s: RaceSummary, formatFriendlyDateTime: Str -> Str): (r: Str)
    ensures s.startTime.Some? && s.startTime.value != [] ==> r == formatFriendlyDateTime(s.startTime.value)
    ensures s.startTime.None? || s.startTime.value == [] ==> r == UnknownStart
  {
    if s.startTime.Some? && s.startTime.value != [] then formatFriendlyDateTime(s.startTime.value)
    else UnknownStart
  }

  /** `SoF: {sof} | Grid: {gridSize} | Laps: {lapCount} | Wet: {Yes|No}`. */
  function InfoLine(s: RaceSummary): (r: Str)
    ensures var sof := IntToStr(s.sof);
      |r| > |SofLabel| + |sof| && r[..|SofLabel|] == SofLabel && r[|SofLabel|..|SofLabel| + |sof|] == sof
    ensures r[|r| - 3..] == Yes <==> s.isWet
    ensures !s.isWet ==> r[|r| - 2..] == No
    ensures r == SofLabel + IntToStr(s.sof) + (GridLabel + IntToStr(s.gridSize) + LapsLabel
                 + IntToStr(s.lapCount) + WetLabel + (if s.isWet then Yes else No))
  {
    var sof := IntToStr(s.sof);
    var middle := GridLabel + IntToStr(s.gridSize) + LapsLabel + IntToStr(s.lapCount) + WetLabel;
    var wet := if s.isWet then Yes else No;
    var r := SofLabel + sof + (middle + wet);
    Framed(SofLabel, sof, middle + wet);
    assert r == (SofLabel + sof + middle) + wet;
    assert !s.isWet ==> r[|r| - 3] == middle[|middle| - 1] == WetLabel[|WetLabel| - 1];
    r
  }

  /** The three parts of `a + b + c` sit at their offsets. */
  lemma Framed<T>(a: seq<T>, b: seq<T>, c: seq<T>)
    ensures var r := a + b + c;
      r[..|a|] == a && r[|a|..|a| + |b|] == b && r[|a| + |b|..] == c
  {
  }

  /** The seven parts of the report, in order. */
  function MessageLines(s: RaceSummary, splitNumber: int, seriesName: Str, formatFriendlyDateTime: Str -> Str): seq<Str> {
    [TitleLine(s), SplitLine(splitNumber), seriesName, StartLine(s, formatFriendlyDateTime),
     s.trackName, InfoLine(s), Table(s.podium)]
  }

  /** The report: its seven parts joined by newlines. */
  function Message(s: RaceSummary, splitNumber: int, seriesName: Str, formatFriendlyDateTime: Str -> Str): Str {
    Join(MessageLines(s, splitNumber, seriesName, formatFriendlyDateTime), [Newline])
  }

  /** The report is the title line, then the split, series, start, track
      and info lines, each on its own line, then the fenced table. */
  lemma MessageParts(s: RaceSummary, splitNumber: int, seriesName: Str, formatFriendlyDateTime: Str -> Str)
    ensures Message(s, splitNumber, seriesName, formatFriendlyDateTime)
         == TitleLine(s) + [Newline]
          + Join([SplitLine(splitNumber), seriesName, StartLine(s, formatFriendlyDateTime), s.trackName, InfoLine(s)], [Newline])
          + [Newline] + Table(s.podium)
  {
    JoinSeven(TitleLine(s), SplitLine(splitNumber), seriesName, StartLine(s, formatFriendlyDateTime),
              s.trackName, InfoLine(s), Table(s.podium), [Newline]);
  }

  lemma JoinSeven(a: Str, b: Str, c: Str, d: Str, e: Str, f: Str, g: Str, sep: Str)
    ensures Join([a, b, c, d, e, f, g], sep) == a + sep + Join([b, c, d, e, f], sep) + sep + g
  {
    var ps := [a, b, c, d, e, f, g];
    JoinOuter(ps, sep);
    assert ps[1..|ps| - 1] == [b, c, d, e, f];
  }

  /** The title with its glyph cluster, built as the source does: the P2
      gap, then the cluster glyph by glyph, then the cluster appended when
      non-empty. */
  method BuildTitle(parsed: RaceSummary) returns (titleLine: Str)
    ensures titleLine == TitleLine(parsed)
  {
    var podium := parsed.podium;
    titleLine := TitleStart + IntToStr(parsed.raceWeek) + TitleEnd;

    var secondPlaceGapSec := NoGap;
    if |podium| > 1 {
      var leaderLaps := podium[0].lapsComplete;
      var secondLaps := podium[1].lapsComplete;
      if leaderLaps == secondLaps {
        secondPlaceGapSec := podium[1].marginRaw;
      }
    }

    var emojis: Str := [];
    if secondPlaceGapSec < 1.0 {
      emojis := emojis + Fire;
    }
    if parsed.isWet {
      emojis := emojis + Rain;
    } else {
      emojis := emojis + SkyGlyph(parsed.weatherCondition);
    }
    if parsed.sof > TrophySof {
      emojis := emojis + Trophy;
    }
    assert emojis == Emojis(parsed);
    if emojis != [] {
      titleLine := titleLine + [Space] + emojis;
    }
  }

  /** The body of the `podium.forEach` callback: the row of entry `idx`. */
  method BuildRow(p: PodiumEntry, idx: nat, leaderLaps: int) returns (row: Str)
    ensures row == TableRow(p, idx, leaderLaps)
  {
    var gapDisplay := BuildGap(p, idx, leaderLaps);
    var finalName := BuildDriverName(p.driverName);
    var posStr := PadEnd([PositionPrefix] + IntToStr(p.position), PosWidth);
    var gapStr := PadEnd(gapDisplay, GapWidth);
    var drvStr := Prefix(PadEnd(finalName, DriverWidth), DriverWidth);
    var ptsStr := IntToStr(p.points);
    row := posStr + [Space] + gapStr + [Space] + drvStr + [Space] + ptsStr + [Newline];
  }

  /** The gap column of the callback, before padding: the statements of
      the source (an empty start, then reassignment by branch), proved to
      compute the specification `GapDisplay`. */
  method BuildGap(p: PodiumEntry, idx: nat, leaderLaps: int) returns (gapDisplay: Str)
    ensures gapDisplay == GapDisplay(p, idx, leaderLaps)
  {
    gapDisplay := [];
    if idx != 0 {
      var lapsBehind := leaderLaps - p.lapsComplete;
      if lapsBehind > 0 {
        gapDisplay := [Minus] + IntToStr(lapsBehind) + [LapSuffix];
      } else {
        var raw := if p.marginRaw > 0.0 then p.marginRaw else 0.0;
        gapDisplay := ToFixed1(raw);
      }
    }
  }

  /** The driver name of the callback, before padding and cutting: the
      source's `let finalName` reassigned after `shift` and `join`, proved
      to compute the specification `DriverDisplayName`. */
  method BuildDriverName(driverName: Str) returns (finalName: Str)
    ensures finalName == DriverDisplayName(driverName)
  {
    finalName := driverName;
    var nameParts := SplitWs(finalName);
    if |nameParts| > 1 && HasFlagUnit(nameParts[0]) {
      var flag := nameParts[0];
      nameParts := nameParts[1..];
      var rawName := Join(nameParts, [Space]);
      finalName := flag + [Space] + TruncateNameToInitialLast(rawName);
    } else {
      finalName := TruncateNameToInitialLast(finalName);
    }
  }

  /** Appending the next row to the text so far gives the rows one further. */
  lemma AppendRow(head: Str, podium: seq<PodiumEntry>, leaderLaps: int, idx: nat)
    requires idx < |podium|
    ensures head + RowsUpTo(podium, leaderLaps, idx) + TableRow(podium[idx], idx, leaderLaps)
         == head + RowsUpTo(podium, leaderLaps, idx + 1)
  {
    ConcatSnoc(Rows(podium, leaderLaps), idx);
  }

  /** The fenced table: the head, one row per podium entry in podium order
      (the `podium.forEach` loop), and the closing fence. */
  method BuildTable(podium: seq<PodiumEntry>) returns (tableText: Str)
    ensures tableText == Table(podium)
  {
    tableText := TableHead();
    var leaderLaps := if |podium| > 0 then podium[0].lapsComplete else 0;
    var idx := 0;
    while idx < |podium|
      invariant 0 <= idx <= |podium|
      invariant tableText == TableHead() + RowsUpTo(podium, leaderLaps, idx)
    {
      var row := BuildRow(podium[idx], idx, leaderLaps);
      AppendRow(TableHead(), podium, leaderLaps, idx);
      tableText := tableText + row;
      idx := idx + 1;
    }
    tableText := tableText + Fence;
  }

  /** `buildTcrRaceMessage(parsed, { splitNumber, seriesName })`, with the
      date formatter passed in. */
  method BuildTcrRaceMessage(parsed: RaceSummary, splitNumber: int, seriesName: Str,
                             formatFriendlyDateTime: Str -> Str) returns (msg: Str)
    ensures msg == Message(parsed, splitNumber, seriesName, formatFriendlyDateTime)
  {
    var podium := parsed.podium;
    var titleLine := BuildTitle(parsed);

    var lineSplit := SplitStart + IntToStr(splitNumber);
    var lineSeries := seriesName;
    var lineStart := if parsed.startTime.Some? && parsed.startTime.value != []
                     then formatFriendlyDateTime(parsed.startTime.value) else UnknownStart;
    var lineTrack := parsed.trackName;
    var infoLine := InfoLine(parsed);

    var tableText := BuildTable(podium);

    msg := Join([titleLine, lineSplit, lineSeries, lineStart, lineTrack, infoLine, tableText], [Newline]);
  }
}
