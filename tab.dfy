/**
 * Rendering of the team tab and the speaker tab: a header row followed by
 * one ranked row per team (or speaker). Standings themselves are computed
 * by a module that is not part of this model; they arrive as `TeamResult`
 * values.
 */
module TabRender {
  import opened Ranking

  datatype Team = Team(id: nat, name: string)

  /** A team's points in one round and whether that round is closed. */
  datatype RoundPoints = RoundPoints(points: int, isClosed: bool)

  /** A speaker's standing: who, for which team, and the points per round. */
  datatype SpeakerResult = SpeakerResult(speaker: string, teamName: string, points: seq<int>)

  /**
   * A team's standing. `speakers` is what the standing reports for its two
   * speakers; `showAll` is the flag the team table sets on every entry.
   */
  datatype TeamResult = TeamResult(
    team: Team, sumPoints: int, sumSpeakers: int,
    countPlayoffRounds: nat, playoffPosition: nat,
    rounds: seq<RoundPoints>, speakers: seq<SpeakerResult>, showAll: bool)

  /** Teams compare by (total points, total speaker points). */
  function TeamKey(t: TeamResult): Score {
    Score(t.sumPoints, t.sumSpeakers)
  }

  function Sum(xs: seq<int>): int {
    if xs == [] then 0 else xs[0] + Sum(xs[1..])
  }

  /** Speakers compare by their total points. */
  function SpeakerKey(s: SpeakerResult): Score {
    Score(Sum(s.points), 0)
  }

  // ---------------------------------------------------------------------
  // Playoff column

  /** The label of the playoff column; `OneOver(d)` is the text "1/d". */
  datatype PlayoffLabel = NotInBreak | Winner | Finalists | OneOver(denominator: nat)

  function Pow2(n: nat): (r: nat)
    ensures r >= 1
  {
    if n == 0 then 1 else 2 * Pow2(n - 1)
  }

  lemma {:induction false} Pow2StrictlyIncreasing(m: nat, n: nat)
    requires m < n
    ensures Pow2(m) < Pow2(n)
    decreases n - m
  {
    if m + 1 < n {
      Pow2StrictlyIncreasing(m, n - 1);
    }
  }

  /**
   * A team that reached `count` playoff rounds with bracket position
   * `position`: not in the break when it played no playoff round or has
   * position 0, winner past the last round, finalist at it, otherwise
   * "1/2^(count - position)".
   */
  function PlayoffPosition(count: nat, position: nat): (l: PlayoffLabel)
    ensures l == NotInBreak <==> count == 0 || position == 0
    ensures l == Winner <==> 0 < count < position
    ensures l == Finalists <==> 0 < count == position
    ensures l.OneOver? <==> 0 < position < count
    ensures l.OneOver? ==> l.denominator == Pow2(count - position)
  {
    if count == 0 then NotInBreak
    else if position > count then Winner
    else if position == count then Finalists
    else if position == 0 then NotInBreak
    else OneOver(Pow2(count - position))
  }

  /**
   * Within one bracket depth, the "1/d" labels are distinct powers of two
   * of at least 2, and a team that got further gets a larger fraction.
   */
  lemma {:induction false} FractionsOrderPositions(count: nat, p: nat, q: nat)
    requires 0 < p < q < count
    ensures PlayoffPosition(count, p).denominator > PlayoffPosition(count, q).denominator >= 2
  {
    Pow2StrictlyIncreasing(count - q, count - p);
    Pow2StrictlyIncreasing(0, count - q);
  }

  /** Distinct positions inside the bracket get distinct labels. */
  lemma PlayoffLabelInjective(count: nat, p: nat, q: nat)
    requires 0 < p <= count && 0 < q <= count
    requires PlayoffPosition(count, p) == PlayoffPosition(count, q)
    ensures p == q
  {
    if p < q && q < count {
      FractionsOrderPositions(count, p, q);
    } else if q < p && p < count {
      FractionsOrderPositions(count, q, p);
    }
  }

  // ---------------------------------------------------------------------
  // Headers

  datatype HeaderCell = LblN | LblTeam | LblSpeaker | LblSumPoints | LblPlayoff | LblSumSpeakers | LblRound(round: nat)

  /** The largest element, or 0 for an empty sequence. */
  function Max0(xs: seq<nat>): (m: nat)
    ensures forall i :: 0 <= i < |xs| ==> xs[i] <= m
    ensures m == 0 || exists i :: 0 <= i < |xs| && xs[i] == m
  {
    if xs == [] then 0
    else
      var rest := Max0(xs[1..]);
      if xs[0] >= rest then xs[0] else rest
  }

  function MaxRounds(table: seq<TeamResult>): (m: nat) {
    Max0(seq(|table|, i requires 0 <= i < |table| => |table[i].rounds|))
  }

  function MaxSpeakerRounds(speakers: seq<SpeakerResult>): (m: nat) {
    Max0(seq(|speakers|, i requires 0 <= i < |speakers| => |speakers[i].points|))
  }

  /** `fixed` followed by "round 1" … "round count". */
  ghost predicate IsHeader(header: seq<HeaderCell>, fixed: seq<HeaderCell>, count: nat) {
    && |header| == |fixed| + count
    && header[..|fixed|] == fixed
    && forall i :: |fixed| <= i < |header| ==> header[i] == LblRound(i - |fixed| + 1)
  }

  const TeamFixed: seq<HeaderCell> := [LblN, LblTeam, LblSumPoints, LblPlayoff, LblSumSpeakers]
  const SpeakerFixed: seq<HeaderCell> := [LblN, LblSpeaker, LblTeam, LblSumSpeakers]

  method BuildHeader(fixed: seq<HeaderCell>, count: nat) returns (header: seq<HeaderCell>)
    ensures IsHeader(header, fixed, count)
  {
    header := fixed;
    var i := 1;
    while i < count + 1
      invariant 1 <= i <= count + 1
      invariant IsHeader(header, fixed, i - 1)
    {
      header := header + [LblRound(i)];
      i := i + 1;
    }
  }

  // ---------------------------------------------------------------------
  // Team table

  datatype TeamLine = TeamLine(n: nat, team: string, sumPoints: int, playoff: PlayoffLabel, sumSpeakers: int, rounds: seq<int>)

  /** A round's cell: its points, or 0 for a closed round unless everything is shown. */
  function RoundCell(r: RoundPoints, showAll: bool): int {
    if !r.isClosed || showAll then r.points else 0
  }

  /** The round cells of one row. */
  method RoundCells(rounds: seq<RoundPoints>, showAll: bool) returns (cells: seq<int>)
    ensures |cells| == |rounds|
    ensures forall k :: 0 <= k < |rounds| ==> cells[k] == RoundCell(rounds[k], showAll)
  {
    cells := [];
    var k := 0;
    while k < |rounds|
      invariant 0 <= k <= |rounds|
      invariant |cells| == k
      invariant forall m :: 0 <= m < k ==> cells[m] == RoundCell(rounds[m], showAll)
    {
      cells := cells + [RoundCell(rounds[k], showAll)];
      k := k + 1;
    }
  }

  /** `line` is the row of team `t` printed with rank `n`. */
  ghost predicate DescribesTeam(line: TeamLine, t: TeamResult, n: nat, showAll: bool) {
    && line.n == n
    && line.team == t.team.name
    && line.sumPoints == t.sumPoints
    && line.playoff == PlayoffPosition(t.countPlayoffRounds, t.playoffPosition)
    && line.sumSpeakers == t.sumSpeakers
    && |line.rounds| == |t.rounds|
    && forall k :: 0 <= k < |t.rounds| ==> line.rounds[k] == RoundCell(t.rounds[k], showAll)
  }

  /** Rows `lines` describe the ranked, sorted table `sorted`, one row per entry. */
  ghost predicate IsTeamBody(lines: seq<TeamLine>, sorted: seq<TeamResult>, showAll: bool) {
    && |lines| == |sorted|
    && forall i :: 0 <= i < |lines| ==> DescribesTeam(lines[i], sorted[i], RankAt(sorted, TeamKey, i), showAll)
  }

  /** The rows of the team table for an already marked table (sorting included). */
  method BuildTeamTable(table: seq<TeamResult>, showAll: bool) returns (header: seq<HeaderCell>, lines: seq<TeamLine>)
    ensures IsHeader(header, TeamFixed, MaxRounds(table))
    ensures IsTeamBody(lines, SortDesc(table, TeamKey), showAll)
  {
    header := BuildHeader(TeamFixed, MaxRounds(table));
    var sorted := SortDesc(table, TeamKey);
    lines := [];
    var i := 0;
    while i < |sorted|
      invariant 0 <= i <= |sorted|
      invariant |lines| == i
      invariant forall j :: 0 <= j < i ==> DescribesTeam(lines[j], sorted[j], RankAt(sorted, TeamKey, j), showAll)
    {
      var n := if i > 0 && TeamKey(sorted[i - 1]) == TeamKey(sorted[i]) then lines[i - 1].n else i + 1;
      var t := sorted[i];
      var cells := RoundCells(t.rounds, showAll);
      var line := TeamLine(n, t.team.name, t.sumPoints, PlayoffPosition(t.countPlayoffRounds, t.playoffPosition), t.sumSpeakers, cells);
      assert DescribesTeam(line, sorted[i], RankAt(sorted, TeamKey, i), showAll);
      ghost var prev := lines;
      lines := lines + [line];
      forall j | 0 <= j <= i
        ensures DescribesTeam(lines[j], sorted[j], RankAt(sorted, TeamKey, j), showAll)
      {
        if j < i {
          assert lines[j] == prev[j];
        }
      }
      i := i + 1;
    }
  }


  /** The entries after the team table has set their show-all flag. */
  function Marked(table: seq<TeamResult>, showAll: bool): (r: seq<TeamResult>)
    ensures |r| == |table|
    ensures forall i :: 0 <= i < |r| ==> r[i] == table[i].(showAll := showAll)
  {
    seq(|table|, i requires 0 <= i < |table| => table[i].(showAll := showAll))
  }

  /**
   * The team table: sets the show-all flag on every entry in place, then
   * sorts and prints one header row and one ranked row per entry.
   */
  method ConvertTabToTable(table: array<TeamResult>, showAll: bool) returns (header: seq<HeaderCell>, lines: seq<TeamLine>)
    modifies table
    ensures table[..] == Marked(old(table[..]), showAll)
    ensures IsHeader(header, TeamFixed, MaxRounds(table[..]))
    ensures IsTeamBody(lines, SortDesc(table[..], TeamKey), showAll)
  {
    var i := 0;
    while i < table.Length
      invariant 0 <= i <= table.Length
      invariant forall j :: 0 <= j < i ==> table[j] == old(table[j]).(showAll := showAll)
      invariant forall j :: i <= j < table.Length ==> table[j] == old(table[j])
    {
      table[i] := table[i].(showAll := showAll);
      i := i + 1;
    }
    header, lines := BuildTeamTable(table[..], showAll);
  }

  /**
   * Rows for two tied teams carry the same rank, rows for teams that are
   * not tied carry different ranks, and the rank of a row is one plus the
   * number of teams strictly ahead of it.
   */
  lemma TeamRanksAreCompetitionRanks(lines: seq<TeamLine>, table: seq<TeamResult>, showAll: bool, i: nat, j: nat)
    requires IsTeamBody(lines, SortDesc(table, TeamKey), showAll)
    requires i < |lines| && j < |lines|
    ensures var sorted := SortDesc(table, TeamKey);
      && (lines[i].n == lines[j].n <==> TeamKey(sorted[i]) == TeamKey(sorted[j]))
      && (forall k :: 0 <= k < lines[i].n - 1 ==> Better(TeamKey(sorted[k]), TeamKey(sorted[i])))
      && (forall k :: lines[i].n - 1 <= k < |sorted| ==> !Better(TeamKey(sorted[k]), TeamKey(sorted[i])))
  {
    var sorted := SortDesc(table, TeamKey);
    SameRankIffTied(sorted, TeamKey, i, j);
    RankCountsBetter(sorted, TeamKey, i);
  }

  /** Every entry of the input is printed in some row, with its rank. */
  lemma TeamTableListsEveryEntry(lines: seq<TeamLine>, table: seq<TeamResult>, showAll: bool, t: TeamResult)
    requires IsTeamBody(lines, SortDesc(table, TeamKey), showAll)
    requires t in table
    ensures exists i :: 0 <= i < |lines| && DescribesTeam(lines[i], t, lines[i].n, showAll)
  {
    var sorted := SortDesc(table, TeamKey);
    assert t in multiset(table);
    assert t in sorted;
    var i :| 0 <= i < |sorted| && sorted[i] == t;
    assert DescribesTeam(lines[i], sorted[i], RankAt(sorted, TeamKey, i), showAll);
  }

  // ---------------------------------------------------------------------
  // Speaker table

  /** The speakers of all standings, team after team. */
  function AllSpeakers(table: seq<TeamResult>): seq<SpeakerResult> {
    if table == [] then [] else AllSpeakers(table[..|table| - 1]) + table[|table| - 1].speakers
  }

  /**
   * Python's `random.shuffle` (Fisher-Yates): for i from the last index
   * down to 1, swap element i with an element j <= i. The random choices
   * are the parameter `draws` (taken modulo i + 1, 0 once exhausted).
   */
  method Shuffle<T>(a: array<T>, draws: seq<nat>)
    modifies a
    ensures multiset(a[..]) == multiset(old(a[..]))
  {
    var i := a.Length - 1;
    while i > 0
      invariant i < a.Length
      invariant multiset(a[..]) == multiset(old(a[..]))
    {
      var step := a.Length - 1 - i;
      var r := if step < |draws| then draws[step] else 0;
      var j := r % (i + 1);
      a[i], a[j] := a[j], a[i];
      i := i - 1;
    }
  }

  datatype SpeakerLine = SpeakerLine(n: nat, speaker: string, team: string, sumPoints: int, points: seq<int>)

  /** `line` is the row of speaker `s` with rank `n`; scores are zero unless shown. */
  ghost predicate DescribesSpeaker(line: SpeakerLine, s: SpeakerResult, n: nat, isShow: bool) {
    && line.n == n
    && line.speaker == s.speaker
    && line.team == s.teamName
    && line.sumPoints == (if isShow then Sum(s.points) else 0)
    && |line.points| == |s.points|
    && forall k :: 0 <= k < |s.points| ==> line.points[k] == (if isShow then s.points[k] else 0)
  }

  ghost predicate IsSpeakerBody(lines: seq<SpeakerLine>, arranged: seq<SpeakerResult>, isShow: bool) {
    && |lines| == |arranged|
    && forall i :: 0 <= i < |lines| ==> DescribesSpeaker(lines[i], arranged[i], RankAt(arranged, SpeakerKey, i), isShow)
  }

  method SpeakerCells(points: seq<int>, isShow: bool) returns (cells: seq<int>)
    ensures |cells| == |points|
    ensures forall k :: 0 <= k < |points| ==> cells[k] == (if isShow then points[k] else 0)
  {
    cells := [];
    var k := 0;
    while k < |points|
      invariant 0 <= k <= |points|
      invariant |cells| == k
      invariant forall m :: 0 <= m < k ==> cells[m] == (if isShow then points[m] else 0)
    {
      cells := cells + [points[k] * (if isShow then 1 else 0)];
      k := k + 1;
    }
  }

  /** The loop collecting the speakers of every standing. */
  method CollectSpeakers(table: seq<TeamResult>) returns (speakers: seq<SpeakerResult>)
    ensures speakers == AllSpeakers(table)
  {
    speakers := [];
    var t := 0;
    while t < |table|
      invariant 0 <= t <= |table|
      invariant speakers == AllSpeakers(table[..t])
    {
      assert table[..t + 1][..t] == table[..t];
      speakers := speakers + table[t].speakers;
      t := t + 1;
    }
    assert table[..t] == table;
  }

  /** The ranked speaker rows for the speakers in the order given. */
  method BuildSpeakerLines(speakers: seq<SpeakerResult>, isShow: bool) returns (lines: seq<SpeakerLine>)
    ensures IsSpeakerBody(lines, speakers, isShow)
  {
    lines := [];
    var i := 0;
    while i < |speakers|
      invariant 0 <= i <= |speakers|
      invariant |lines| == i
      invariant forall j :: 0 <= j < i ==> DescribesSpeaker(lines[j], speakers[j], RankAt(speakers, SpeakerKey, j), isShow)
    {
      var n := if i > 0 && SpeakerKey(speakers[i - 1]) == SpeakerKey(speakers[i]) then lines[i - 1].n else i + 1;
      var s := speakers[i];
      var cells := SpeakerCells(s.points, isShow);
      assert n == RankAt(speakers, SpeakerKey, i);
      var line := SpeakerLine(n, s.speaker, s.teamName, if isShow then Sum(s.points) else 0, cells);
      assert DescribesSpeaker(line, speakers[i], RankAt(speakers, SpeakerKey, i), isShow);
      ghost var prev := lines;
      lines := lines + [line];
      forall j | 0 <= j <= i
        ensures DescribesSpeaker(lines[j], speakers[j], RankAt(speakers, SpeakerKey, j), isShow)
      {
        if j < i {
          assert lines[j] == prev[j];
        }
      }
      i := i + 1;
    }
  }

  /**
   * The speaker table: all speakers of all standings, sorted (when shown)
   * or shuffled (when hidden), one header row and one ranked row each.
   * `arranged` is the order the rows are printed in.
   */
  method ConvertTabToSpeakerTable(table: seq<TeamResult>, isShow: bool, draws: seq<nat>)
    returns (header: seq<HeaderCell>, lines: seq<SpeakerLine>, ghost arranged: seq<SpeakerResult>)
    ensures multiset(arranged) == multiset(AllSpeakers(table))
    ensures isShow ==> arranged == SortDesc(AllSpeakers(table), SpeakerKey)
    ensures IsHeader(header, SpeakerFixed, MaxSpeakerRounds(arranged))
    ensures IsSpeakerBody(lines, arranged, isShow)
    ensures !isShow ==> forall i :: 0 <= i < |lines| ==>
      lines[i].sumPoints == 0 && forall k :: 0 <= k < |lines[i].points| ==> lines[i].points[k] == 0
  {
    var speakers := CollectSpeakers(table);
    if isShow {
      speakers := SortDesc(speakers, SpeakerKey);
    } else {
      var a := new SpeakerResult[|speakers|](i requires 0 <= i < |speakers| => speakers[i]);
      assert a[..] == speakers;
      Shuffle(a, draws);
      speakers := a[..];
    }
    arranged := speakers;
    header := BuildHeader(SpeakerFixed, MaxSpeakerRounds(speakers));
    lines := BuildSpeakerLines(speakers, isShow);
  }

  /** In a shown speaker table, tied speakers and only they share a rank. */
  lemma ShownSpeakerRanks(lines: seq<SpeakerLine>, arranged: seq<SpeakerResult>, table: seq<TeamResult>, i: nat, j: nat)
    requires arranged == SortDesc(AllSpeakers(table), SpeakerKey)
    requires IsSpeakerBody(lines, arranged, true)
    requires i < |lines| && j < |lines|
    ensures lines[i].n == lines[j].n <==> Sum(arranged[i].points) == Sum(arranged[j].points)
    ensures i < j ==> Sum(arranged[i].points) >= Sum(arranged[j].points)
  {
    SameRankIffTied(arranged, SpeakerKey, i, j);
  }
}
