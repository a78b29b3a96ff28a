/**
 * The break page: the operator ticks the teams that qualify for the
 * playoff. The playoff is generated only when the number of ticked teams
 * is the tournament's configured break size.
 */
module BreakSelection {
  import opened Ranking
  import opened TabRender

  /** Whether checkbox `i` came back ticked (a missing checkbox is not ticked). */
  function Checked(submitted: seq<bool>, i: nat): bool {
    i < |submitted| && submitted[i]
  }

  /** The teams whose checkbox came back ticked, in table order. */
  function Selected(tab: seq<TeamResult>, submitted: seq<bool>): (teams: seq<Team>)
    ensures |teams| <= |tab|
  {
    if tab == [] then []
    else
      var last := |tab| - 1;
      Selected(tab[..last], submitted) + (if Checked(submitted, last) then [tab[last].team] else [])
  }

  /**
   * The selection is exactly the teams of the ticked rows: each selected
   * team sits in a ticked row, and the team of every ticked row is selected.
   */
  lemma {:induction false} SelectedAreTicked(tab: seq<TeamResult>, submitted: seq<bool>)
    ensures forall t :: t in Selected(tab, submitted) ==>
      exists i :: 0 <= i < |tab| && Checked(submitted, i) && tab[i].team == t
    ensures forall i :: 0 <= i < |tab| && Checked(submitted, i) ==> tab[i].team in Selected(tab, submitted)
  {
    if tab != [] {
      var last := |tab| - 1;
      var init := tab[..last];
      SelectedAreTicked(init, submitted);
      forall t | t in Selected(tab, submitted)
        ensures exists i :: 0 <= i < |tab| && Checked(submitted, i) && tab[i].team == t
      {
        if t in Selected(init, submitted) {
          var i :| 0 <= i < |init| && Checked(submitted, i) && init[i].team == t;
          assert tab[i] == init[i];
        } else {
          assert Checked(submitted, last) && tab[last].team == t;
        }
      }
      forall i | 0 <= i < |tab| && Checked(submitted, i)
        ensures tab[i].team in Selected(tab, submitted)
      {
        if i < last {
          assert init[i] == tab[i];
        }
      }
    }
  }

  /** The ticks the page shows before anything was submitted: the first `count` rows. */
  function DefaultTicks(n: nat, count: nat): (ticks: seq<bool>)
    ensures |ticks| == n
    ensures forall i :: 0 <= i < n ==> ticks[i] == (i < count)
  {
    seq(n, i => i < count)
  }

  /** The ticks the page shows after a submission. */
  function PostedTicks(submitted: seq<bool>, n: nat): (ticks: seq<bool>)
    ensures |ticks| == n
    ensures forall i :: 0 <= i < n ==> ticks[i] == Checked(submitted, i)
  {
    seq(n, i requires 0 <= i < n => Checked(submitted, i))
  }

  function TeamsOf(tab: seq<TeamResult>): (teams: seq<Team>)
    ensures |teams| == |tab|
    ensures forall i :: 0 <= i < |tab| ==> teams[i] == tab[i].team
  {
    seq(|tab|, i requires 0 <= i < |tab| => tab[i].team)
  }

  /**
   * Submitting the page unchanged selects the top `count` teams (all teams
   * when there are fewer).
   */
  lemma {:induction false} DefaultSelectionIsTop(tab: seq<TeamResult>, count: nat)
    ensures var n := if count < |tab| then count else |tab|;
      Selected(tab, DefaultTicks(|tab|, count)) == TeamsOf(tab[..n])
  {
    if tab != [] {
      var last := |tab| - 1;
      SelectedIgnoresLaterTicks(tab[..last], DefaultTicks(|tab|, count), DefaultTicks(last, count));
      DefaultSelectionIsTop(tab[..last], count);
      assert tab[..last][..(if count < last then count else last)] == tab[..(if count < last then count else last)];
    }
  }

  /** Only the ticks of existing rows matter. */
  lemma {:induction false} SelectedIgnoresLaterTicks(tab: seq<TeamResult>, s1: seq<bool>, s2: seq<bool>)
    requires forall i :: 0 <= i < |tab| ==> Checked(s1, i) == Checked(s2, i)
    ensures Selected(tab, s1) == Selected(tab, s2)
  {
    if tab != [] {
      SelectedIgnoresLaterTicks(tab[..|tab| - 1], s1, s2);
    }
  }

  datatype BreakOutcome =
    /** `generate_playoff` was called with these teams and the tournament moved to the playoff. */
    | PlayoffGenerated(breaking: seq<Team>)
    /** The page is rendered: an error flag, the ticks shown, the header row and the team rows. */
    | BreakPage(error: bool, checked: seq<bool>, header: seq<HeaderCell>, rows: seq<TeamLine>)

  /** The loop of `generate_break` over the rows: the ticked teams and the ticks to show. */
  method CollectTicks(tab: seq<TeamResult>, isPost: bool, submitted: seq<bool>, countTeamsInBreak: nat)
    returns (teamsInBreak: seq<Team>, checked: seq<bool>)
    ensures teamsInBreak == if isPost then Selected(tab, submitted) else []
    ensures checked == if isPost then PostedTicks(submitted, |tab|) else DefaultTicks(|tab|, countTeamsInBreak)
  {
    teamsInBreak, checked := [], [];
    var i := 0;
    while i < |tab|
      invariant 0 <= i <= |tab|
      invariant teamsInBreak == if isPost then Selected(tab[..i], submitted) else []
      invariant |checked| == i
      invariant forall j :: 0 <= j < i ==> checked[j] == (if isPost then Checked(submitted, j) else j < countTeamsInBreak)
    {
      assert tab[..i + 1][..i] == tab[..i];
      assert Selected(tab[..i + 1], submitted) ==
        Selected(tab[..i], submitted) + (if Checked(submitted, i) then [tab[i].team] else []);
      var tick;
      if isPost {
        tick := i < |submitted| && submitted[i];
        if tick {
          teamsInBreak := teamsInBreak + [tab[i].team];
        }
      } else {
        tick := i < countTeamsInBreak;
      }
      checked := checked + [tick];
      i := i + 1;
    }
    assert tab[..i] == tab;
    if isPost {
      assert checked == PostedTicks(submitted, |tab|);
    } else {
      assert checked == DefaultTicks(|tab|, countTeamsInBreak);
    }
  }

  /**
   * The `generate_break` view over the standings `results`. `submitted` is
   * the posted tick of each row.
   */
  method GenerateBreak(results: seq<TeamResult>, isPost: bool, submitted: seq<bool>, countTeamsInBreak: nat)
    returns (o: BreakOutcome)
    ensures var tab := SortDesc(results, TeamKey);
      && (o.PlayoffGenerated? <==> isPost && |Selected(tab, submitted)| == countTeamsInBreak)
      && (o.PlayoffGenerated? ==> o.breaking == Selected(tab, submitted))
      && (o.BreakPage? ==>
            && o.error == isPost
            && o.checked == (if isPost then PostedTicks(submitted, |tab|) else DefaultTicks(|tab|, countTeamsInBreak))
            && IsHeader(o.header, TeamFixed, MaxRounds(Marked(tab, true)))
            && IsTeamBody(o.rows, Marked(tab, true), true))
  {
    var tab := SortDesc(results, TeamKey);
    var arr := new TeamResult[|tab|](i requires 0 <= i < |tab| => tab[i]);
    assert arr[..] == tab;
    var header, table := ConvertTabToTable(arr, true);
    ghost var marked := Marked(tab, true);
    assert SortedDesc(marked, TeamKey) by {
      assert forall i :: 0 <= i < |marked| ==> TeamKey(marked[i]) == TeamKey(tab[i]);
    }
    SortDescFixpoint(marked, TeamKey);

    var teamsInBreak, checked := CollectTicks(tab, isPost, submitted, countTeamsInBreak);
    if isPost {
      if |teamsInBreak| != countTeamsInBreak {
        o := BreakPage(true, checked, header, table);
      } else {
        o := PlayoffGenerated(teamsInBreak);
      }
    } else {
      o := BreakPage(false, checked, header, table);
    }
  }
}
