/**
 * `App`: the navigation between the landing page, name entry, the game,
 * the leaderboard and the how-to-play page, with the player's name and the
 * last completed session.
 */
module App {
  import opened Common
  import opened Text
  import Session
  import NameEntry

  /** The values of `screen`. */
  datatype Screen = Landing | NameEntryScreen | Game | LeaderboardScreen | HowToPlayScreen

  /** The child components `App` can render. */
  datatype Component = LandingPageView | NameEntryView | GameScreenView | LeaderboardView | HowToPlayView

  /** The rendered children: one `screen === …` conditional per component, in order. */
  function Rendered(screen: Screen): seq<Component> {
    (if screen == Landing then [LandingPageView] else [])
    + (if screen == NameEntryScreen then [NameEntryView] else [])
    + (if screen == Game then [GameScreenView] else [])
    + (if screen == LeaderboardScreen then [LeaderboardView] else [])
    + (if screen == HowToPlayScreen then [HowToPlayView] else [])
  }

  /** Every screen renders exactly one component, and no two screens the same one. */
  lemma ExactlyOneComponent(screen: Screen, other: Screen)
    ensures |Rendered(screen)| == 1
    ensures screen != other ==> Rendered(screen) != Rendered(other)
  {
    if screen != other {
      assert Rendered(screen)[0] != Rendered(other)[0];
    }
  }

  class AppState {
    var screen: Screen
    var playerName: string
    /** The session passed to `onGameComplete`, if any. */
    var gameSession: Option<Session.Summary>

    constructor ()
      ensures screen == Landing && playerName == [] && gameSession == None
    {
      screen := Landing;
      playerName := [];
      gameSession := None;
    }

    /** `handleStartGame`. */
    method HandleStartGame()
      modifies this`screen
      ensures screen == NameEntryScreen
    {
      screen := NameEntryScreen;
    }

    /** `handleNameSubmit`. */
    method HandleNameSubmit(name: string)
      modifies this`screen, this`playerName
      ensures playerName == name && screen == Game
    {
      playerName := name;
      screen := Game;
    }

    /** `handleViewLeaderboard`. */
    method HandleViewLeaderboard()
      modifies this`screen
      ensures screen == LeaderboardScreen
    {
      screen := LeaderboardScreen;
    }

    /** `handleHowToPlay`. */
    method HandleHowToPlay()
      modifies this`screen
      ensures screen == HowToPlayScreen
    {
      screen := HowToPlayScreen;
    }

    /** `handleBackHome`: back to the landing page, forgetting the player and the session. */
    method HandleBackHome()
      modifies this
      ensures screen == Landing && playerName == [] && gameSession == None
    {
      screen := Landing;
      playerName := [];
      gameSession := None;
    }

    /** `handleGameComplete`: keep the session; the screen stays where it is. */
    method HandleGameComplete(session: Session.Summary)
      modifies this`gameSession
      ensures gameSession == Some(session)
    {
      gameSession := Some(session);
    }

    /**
     * The name form wired to `handleNameSubmit`: a non-blank name takes the
     * player to the game under the trimmed name; a blank one changes nothing.
     */
    method SubmitNameForm(form: NameEntry.NameForm)
      requires screen == NameEntryScreen
      modifies this`screen, this`playerName
      ensures !AllSpace(form.name) ==>
        screen == Game && playerName == Trim(form.name) && playerName != []
      ensures AllSpace(form.name) ==> screen == NameEntryScreen && playerName == old(playerName)
    {
      var submitted := form.HandleSubmit();
      if submitted.Some? {
        HandleNameSubmit(submitted.value);
      }
    }
  }
}
