/**
 * Games and game results of a British Parliamentary debate room: four teams
 * in the roles OG, OO, CG and CO, and a result that is either a
 * qualification result (a place per team and two speaker scores per team)
 * or a playoff result (an "advanced" flag per team).
 */
module GameModel {
  import opened Wrappers

  type TeamId = nat
  type UserId = nat

  /** Opening/Closing Government/Opposition. */
  datatype Role = OG | OO | CG | CO

  /** The roles in the order the game lists its teams. */
  const Roles: seq<Role> := [OG, OO, CG, CO]

  /**
   * The eight speaker positions: Prime Minister, Deputy Prime Minister,
   * Leader and Deputy Leader of the Opposition, Member of Government,
   * Government Whip, Member of Opposition, Opposition Whip.
   */
  datatype Speaker = PM | DPM | LO | DLO | MG | GW | MO | OW

  datatype Game = Game(
    og: TeamId, oo: TeamId, cg: TeamId, co: TeamId,
    chair: UserId, wingLeft: Option<UserId>, wingRight: Option<UserId>,
    motion: nat, date: int)

  /** The team a game seats in a role. */
  function TeamOf(g: Game, role: Role): TeamId {
    match role
    case OG => g.og
    case OO => g.oo
    case CG => g.cg
    case CO => g.co
  }

  /** The team slots, in OG, OO, CG, CO order. */
  function GetTeams(g: Game): (teams: seq<TeamId>)
    ensures |teams| == |Roles|
    ensures forall i :: 0 <= i < |Roles| ==> teams[i] == TeamOf(g, Roles[i])
  {
    [g.og, g.oo, g.cg, g.co]
  }

  /** The role a speaker position belongs to. */
  function RoleOf(s: Speaker): Role {
    match s
    case PM | DPM => OG
    case LO | DLO => OO
    case MG | GW => CG
    case MO | OW => CO
  }

  /** The speaker positions of a role, in speaking order. */
  function SpeakersOf(role: Role): (pair: (Speaker, Speaker))
    ensures RoleOf(pair.0) == role && RoleOf(pair.1) == role && pair.0 != pair.1
  {
    match role
    case OG => (PM, DPM)
    case OO => (LO, DLO)
    case CG => (MG, GW)
    case CO => (MO, OW)
  }

  /** Every speaker position is one of the two positions of its own role. */
  lemma SpeakersCoverPositions(s: Speaker)
    ensures s == SpeakersOf(RoleOf(s)).0 || s == SpeakersOf(RoleOf(s)).1
  {
  }

  /**
   * A stored result. Both variants carry the four reversal flags (true when
   * a team's speakers spoke in the reverse order). A qualification result
   * carries a place per role, a score per speaker position and a flag per
   * speaker position saying whether that speaker was present; a playoff
   * result carries an "advanced" flag per role.
   */
  datatype GameResult =
    | QualificationResult(
        game: Game,
        ogRev: bool, ooRev: bool, cgRev: bool, coRev: bool,
        ogPlace: int, ooPlace: int, cgPlace: int, coPlace: int,
        pm: int, pmExist: bool, dpm: int, dpmExist: bool,
        lo: int, loExist: bool, dlo: int, dloExist: bool,
        mg: int, mgExist: bool, gw: int, gwExist: bool,
        mo: int, moExist: bool, ow: int, owExist: bool)
    | PlayoffResult(
        game: Game,
        ogRev: bool, ooRev: bool, cgRev: bool, coRev: bool,
        ogAdvanced: bool, ooAdvanced: bool, cgAdvanced: bool, coAdvanced: bool)

  /** The place field of a per-role result: a place number or an advanced flag. */
  datatype Place = Position(n: int) | Advanced(advanced: bool)

  /** The per-role record {team, place, speaker_1, speaker_2, revert}. */
  datatype RoleResult = RoleResult(team: TeamId, place: Place, speaker1: int, speaker2: int, revert: bool)

  function Reversed(r: GameResult, role: Role): bool {
    match role
    case OG => r.ogRev
    case OO => r.ooRev
    case CG => r.cgRev
    case CO => r.coRev
  }

  function PlaceOf(r: GameResult, role: Role): Place {
    match r
    case QualificationResult(_, _, _, _, _, og, oo, cg, co, _, _, _, _, _, _, _, _, _, _, _, _, _, _, _, _) =>
      Position(match role case OG => og case OO => oo case CG => cg case CO => co)
    case PlayoffResult(_, _, _, _, _, og, oo, cg, co) =>
      Advanced(match role case OG => og case OO => oo case CG => cg case CO => co)
  }

  /** The score a qualification result records for a speaker position. */
  function SpeakerScore(r: GameResult, s: Speaker): int
    requires r.QualificationResult?
  {
    match s
    case PM => r.pm
    case DPM => r.dpm
    case LO => r.lo
    case DLO => r.dlo
    case MG => r.mg
    case GW => r.gw
    case MO => r.mo
    case OW => r.ow
  }

  function SpeakerExists(r: GameResult, s: Speaker): bool
    requires r.QualificationResult?
  {
    match s
    case PM => r.pmExist
    case DPM => r.dpmExist
    case LO => r.loExist
    case DLO => r.dloExist
    case MG => r.mgExist
    case GW => r.gwExist
    case MO => r.moExist
    case OW => r.owExist
  }

  /**
   * The per-role accessors (get_og_result … get_co_result of both result
   * kinds). The record pairs the role's team, its place, the scores of the
   * role's two speaker positions (0 and 0 in a playoff result) and the
   * role's reversal flag.
   */
  function GetResult(r: GameResult, role: Role): (d: RoleResult)
    ensures d.team == TeamOf(r.game, role)
    ensures d.place == PlaceOf(r, role)
    ensures d.revert == Reversed(r, role)
    ensures r.QualificationResult? ==>
      d.speaker1 == SpeakerScore(r, SpeakersOf(role).0) && d.speaker2 == SpeakerScore(r, SpeakersOf(role).1)
    ensures r.PlayoffResult? ==> d.speaker1 == 0 && d.speaker2 == 0
  {
    var g := r.game;
    match r
    case QualificationResult(_, _, _, _, _, _, _, _, _, _, _, _, _, _, _, _, _, _, _, _, _, _, _, _, _) =>
      (match role
       case OG => RoleResult(g.og, Position(r.ogPlace), r.pm, r.dpm, r.ogRev)
       case OO => RoleResult(g.oo, Position(r.ooPlace), r.lo, r.dlo, r.ooRev)
       case CG => RoleResult(g.cg, Position(r.cgPlace), r.mg, r.gw, r.cgRev)
       case CO => RoleResult(g.co, Position(r.coPlace), r.mo, r.ow, r.coRev))
    case PlayoffResult(_, _, _, _, _, _, _, _, _) =>
      (match role
       case OG => RoleResult(g.og, Advanced(r.ogAdvanced), 0, 0, r.ogRev)
       case OO => RoleResult(g.oo, Advanced(r.ooAdvanced), 0, 0, r.ooRev)
       case CG => RoleResult(g.cg, Advanced(r.cgAdvanced), 0, 0, r.cgRev)
       case CO => RoleResult(g.co, Advanced(r.coAdvanced), 0, 0, r.coRev))
  }

  /**
   * Reading the four per-role results in OG, OO, CG, CO order yields the
   * game's team list, and every speaker position's score appears in exactly
   * the result of its own role.
   */
  lemma ResultsFollowTeams(r: GameResult)
    ensures forall i :: 0 <= i < |Roles| ==> GetResult(r, Roles[i]).team == GetTeams(r.game)[i]
    ensures r.QualificationResult? ==> forall s: Speaker ::
      var d := GetResult(r, RoleOf(s));
      SpeakerScore(r, s) == (if s == SpeakersOf(RoleOf(s)).0 then d.speaker1 else d.speaker2)
  {
    if r.QualificationResult? {
      forall s: Speaker
        ensures var d := GetResult(r, RoleOf(s));
          SpeakerScore(r, s) == (if s == SpeakersOf(RoleOf(s)).0 then d.speaker1 else d.speaker2)
      {
        SpeakersCoverPositions(s);
      }
    }
  }

  /** The place field of a role's result tells which variant the result is. */
  lemma PlaceKindMatchesVariant(r: GameResult, role: Role)
    ensures GetResult(r, role).place.Position? <==> r.QualificationResult?
    ensures GetResult(r, role).place.Advanced? <==> r.PlayoffResult?
  {
  }

  /** The stored defaults. */
  ghost predicate HasDefaults(r: GameResult) {
    && (forall role :: !Reversed(r, role))
    && (r.QualificationResult? ==> forall s :: SpeakerExists(r, s))
  }

  /** A qualification result created with the field defaults. */
  function NewQualificationResult(game: Game, places: (int, int, int, int), scores: seq<int>): (r: GameResult)
    requires |scores| == 8
    ensures r.QualificationResult? && r.game == game && HasDefaults(r)
    ensures forall role :: GetResult(r, role).place == Position(
      match role case OG => places.0 case OO => places.1 case CG => places.2 case CO => places.3)
    ensures forall s :: SpeakerScore(r, s) == scores[SpeakerIndex(s)]
  {
    QualificationResult(game, false, false, false, false,
      places.0, places.1, places.2, places.3,
      scores[0], true, scores[1], true, scores[2], true, scores[3], true,
      scores[4], true, scores[5], true, scores[6], true, scores[7], true)
  }

  /** A playoff result created with the field defaults. */
  function NewPlayoffResult(game: Game, advanced: (bool, bool, bool, bool)): (r: GameResult)
    ensures r.PlayoffResult? && r.game == game && HasDefaults(r)
    ensures forall role :: GetResult(r, role).place == Advanced(
      match role case OG => advanced.0 case OO => advanced.1 case CG => advanced.2 case CO => advanced.3)
  {
    PlayoffResult(game, false, false, false, false, advanced.0, advanced.1, advanced.2, advanced.3)
  }

  /** Position of a speaker in the declaration order pm, dpm, lo, dlo, mg, gw, mo, ow. */
  function SpeakerIndex(s: Speaker): (i: nat)
    ensures i < 8
  {
    match s
    case PM => 0 case DPM => 1 case LO => 2 case DLO => 3
    case MG => 4 case GW => 5 case MO => 6 case OW => 7
  }

  /** With the defaults, no role result reports reversed speakers. */
  lemma DefaultsNotReverted(r: GameResult, role: Role)
    requires HasDefaults(r)
    ensures !GetResult(r, role).revert
  {
  }
}
