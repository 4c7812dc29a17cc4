/**
 * The tournament engine's records: players, games (pods), rounds and
 * tournaments, the caller of a command, and the rejections a command can
 * answer with.
 */
module Model {

  datatype Option<T> = None | Some(value: T)

  /** A platform user id (a Discord snowflake in the bot). */
  type PlayerId = int

  /** A registered player. `points` is a float in the bot, but every increment is an integer. */
  datatype Player = Player(id: PlayerId, name: string, points: int, matchesPlayed: int)

  /** One pod of a round: its members and, once reported, the points each placement earned. */
  datatype Game = Game(podNumber: int, players: seq<PlayerId>, resultsReported: bool, results: map<PlayerId, int>)

  /** A round; `startTime` is in whole seconds, `None` when unknown (for instance after a reload). */
  datatype Round = Round(number: int, games: seq<Game>, active: bool, startTime: Option<int>, notifiedTimeout: bool)

  datatype Tournament = Tournament(
    id: string,
    name: string,
    host: PlayerId,
    players: map<PlayerId, Player>,
    rounds: seq<Round>,
    finished: bool,
    podSize: int,
    maxRounds: int,
    timeLimit: int)

  /** Defaults of the `Tournament` record for the configurable fields. */
  const DefaultPodSize := 4
  const DefaultMaxRounds := 4
  const DefaultTimeLimit := 90

  /** The user who issued a command, with the two platform facts the bot consults. */
  datatype Caller = Caller(id: PlayerId, isAdmin: bool, hasOrganizerRole: bool)

  /** The organizer gate on the privileged commands: administrators, or holders of the organizer role. */
  predicate IsOrganizer(c: Caller) {
    c.isAdmin || c.hasOrganizerRole
  }

  /** The host-or-admin test of `disqualify` and `end_tournament`. */
  predicate IsHostOrAdmin(t: Tournament, c: Caller) {
    c.id == t.host || c.isAdmin
  }

  /** One constructor per user-facing rejection message. */
  datatype Error =
    | NotOrganizer          // "You need the Tournament Organizer role ..."
    | TournamentNotFound    // "Tournament not found."
    | AlreadyFinished       // "Tournament already finished."
    | AlreadyRegistered     // "You are already registered."
    | NotEnoughPlayers      // "Need at least 2 players."
    | RoundStillActive      // "A round is still active. Finish it first."
    | PodSizeNotPositive    // no message: make_pods would never return
    | NoRoundsStarted       // "No rounds started."
    | RoundEnded            // "The current round has ended."
    | PodNotFound           // "Pod not found."
    | PodAlreadyReported    // "This pod already reported."
    | NotHostOrAdmin        // "Only the host or an admin can ..."
    | NotRegistered         // "... not registered in this tournament."
    | NotInAnyPod           // "You are not in any pod this round."

  datatype Outcome = Done | Fail(error: Error)

  datatype Result<T> = Ok(value: T) | Err(error: Error)

  /** A non-empty set of ids has an id to pick with `:|`, as a loop over a dict's keys does. */
  lemma Inhabited(s: set<PlayerId>)
    requires s != {}
    ensures exists x :: x in s
  {
    if forall x :: x !in s {
      assert false;
    }
  }
}
