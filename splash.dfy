/**
 * The splash screen (src/client/splash.ts): the player types a name, which is
 * cleaned as it is typed; a name of the right length lets the player enter the
 * lobby; the game starts when the server says so; and the first error ends
 * the game for good.
 */
module Splash {
  import opened Wrappers
  import opened Objects
  import opened ClientState

  // The name filter

  /** A character the pattern `[A-Za-z0-9 ]` accepts. */
  predicate IsNameChar(c: char) {
    ('A' <= c <= 'Z') || ('a' <= c <= 'z') || ('0' <= c <= '9') || c == ' '
  }

  /** A character of a cleaned name: a lower-case letter, a digit or a space. */
  predicate IsClean(c: char) {
    ('a' <= c <= 'z') || ('0' <= c <= '9') || c == ' '
  }

  /** `replace(/[^A-Za-z0-9 ]/g, '')`: the accepted characters, in order. */
  function StripName(s: string): (r: string)
    ensures |r| <= |s|
    ensures forall i :: 0 <= i < |r| ==> IsNameChar(r[i])
    ensures (forall i :: 0 <= i < |s| ==> IsNameChar(s[i])) ==> r == s
  {
    if s == [] then []
    else (if IsNameChar(s[0]) then [s[0]] else []) + StripName(s[1..])
  }

  /** `toLowerCase()` on a string of ASCII characters. */
  function ToLower(s: string): (r: string)
    ensures |r| == |s|
    ensures forall i :: 0 <= i < |s| ==> IsNameChar(s[i]) ==> IsClean(r[i])
    ensures forall i :: 0 <= i < |s| ==> ('A' <= s[i] <= 'Z' <==> r[i] != s[i])
  {
    if s == [] then []
    else [if 'A' <= s[0] <= 'Z' then (s[0] as int + 32) as char else s[0]] + ToLower(s[1..])
  }

  /** The cleaned name: only lower-case letters, digits and spaces remain. */
  function FilterName(s: string): (r: string)
    ensures |r| <= |s|
    ensures forall i :: 0 <= i < |r| ==> IsClean(r[i])
  {
    ToLower(StripName(s))
  }

  /** Stripping works piecewise: the stripped halves, joined. */
  lemma {:induction false} StripNameConcat(a: string, b: string)
    ensures StripName(a + b) == StripName(a) + StripName(b)
  {
    if a == [] {
      assert a + b == b;
    } else {
      assert (a + b)[0] == a[0] && (a + b)[1..] == a[1..] + b;
      StripNameConcat(a[1..], b);
    }
  }

  /** Typing one more character appends it to the stripped name when it is accepted, and nothing otherwise. */
  lemma StripNameAppend(s: string, c: char)
    ensures StripName(s + [c]) == StripName(s) + (if IsNameChar(c) then [c] else [])
  {
    StripNameConcat(s, [c]);
  }

  /** Lower-casing works piecewise: the lower-cased halves, joined. */
  lemma {:induction false} ToLowerConcat(a: string, b: string)
    ensures ToLower(a + b) == ToLower(a) + ToLower(b)
  {
    if a == [] {
      assert a + b == b;
    } else {
      assert (a + b)[0] == a[0] && (a + b)[1..] == a[1..] + b;
      ToLowerConcat(a[1..], b);
    }
  }

  /**
   * Typing one more character appends its lower-case form to the cleaned name
   * when the pattern accepts it, and nothing otherwise.
   */
  lemma FilterNameAppend(s: string, c: char)
    ensures FilterName(s + [c]) == FilterName(s)
      + (if IsNameChar(c) then [if 'A' <= c <= 'Z' then (c as int + 32) as char else c] else [])
  {
    StripNameAppend(s, c);
    ToLowerConcat(StripName(s), if IsNameChar(c) then [c] else []);
  }

  /** A name that is already clean passes the filter unchanged. */
  lemma FilterKeepsClean(s: string)
    requires forall i :: 0 <= i < |s| ==> IsClean(s[i])
    ensures FilterName(s) == s
  {
    assert StripName(s) == s;
    var l := ToLower(s);
    assert forall i :: 0 <= i < |s| ==> l[i] == s[i];
  }

  /**
   * Filtering twice is filtering once, so once the field holds a cleaned name
   * it is not rewritten again.
   */
  lemma FilterIdempotent(s: string)
    ensures FilterName(FilterName(s)) == FilterName(s)
  {
    FilterKeepsClean(FilterName(s));
  }

  /** The name is long enough and short enough to start. */
  predicate Ready(name: string) {
    3 <= |name| < 20
  }

  // The screen

  /**
   * The splash screen's elements and the shell flags it sets: the name field,
   * whether the start button and the controls are shown, whether the start
   * panel and the splash were removed, the error overlay, and the lobby count.
   */
  class SplashScreen {
    const state: GameState
    var inputName: string
    var startShown: bool
    var controlsShown: bool
    /** The `.splash-start` panel is gone: the player entered the lobby. */
    var lobbyEntered: bool
    var splashRemoved: bool
    /** Whether clicking the canvas asks for full screen (armed by `startGame`). */
    var canvasClickArmed: bool
    var errorShown: bool
    var errorText: string
    /** The `total of max` text of the lobby. */
    var lobbyPlayers: Option<(int, int)>
    /** `env.shell.fullscreen` and `env.shell.pointerLock`. */
    var fullscreen: bool
    var pointerLock: bool

    /** `init(state)`: an empty name field, nothing shown yet. */
    constructor(state: GameState)
      ensures this.state == state && inputName == "" && !startShown && !controlsShown
      ensures !lobbyEntered && !splashRemoved && !canvasClickArmed && !errorShown && errorText == ""
      ensures lobbyPlayers == None && !fullscreen && !pointerLock
    {
      this.state := state;
      inputName, startShown, controlsShown := "", false, false;
      lobbyEntered, splashRemoved, canvasClickArmed := false, false, false;
      errorShown, errorText, lobbyPlayers := false, "", None;
      fullscreen, pointerLock := false, false;
    }

    /**
     * `enterLobby()`: removes the start panel and sends `activate`.  A second
     * call finds no panel to remove and throws before sending; a closed socket
     * makes the send throw.
     */
    method EnterLobby() returns (r: Outcome)
      modifies this`lobbyEntered, state.socket`sent
      ensures old(lobbyEntered) ==> r.Fail? && lobbyEntered && state.socket.sent == old(state.socket.sent)
      ensures !old(lobbyEntered) ==> (lobbyEntered && (r.Pass? <==> state.socket.ready)
        && state.socket.sent == if state.socket.ready then old(state.socket.sent) + [ActivateMsg] else old(state.socket.sent))
    {
      if lobbyEntered {
        return Fail("Cannot read property 'remove' of null");
      }
      lobbyEntered := true;
      r := state.socket.Send(ActivateMsg);
    }

    /**
     * `updateSplash(e)`: nothing once the game has started.  Otherwise the field
     * is rewritten with the cleaned name, the start button and controls are
     * shown exactly when that name is ready, and Enter on a ready name enters
     * the lobby.
     */
    method UpdateSplash(key: Option<string>) returns (r: Outcome)
      modifies this`inputName, this`startShown, this`controlsShown, this`lobbyEntered, state.socket`sent
      ensures old(state.startTime) > 0.0 ==> r.Pass? && unchanged(this) && unchanged(state.socket)
      ensures old(state.startTime) <= 0.0 ==>
        && inputName == FilterName(old(inputName))
        && startShown == Ready(inputName) && controlsShown == Ready(inputName)
        && (Ready(inputName) && key == Some("Enter") ==> lobbyEntered)
        && (!(Ready(inputName) && key == Some("Enter")) ==>
              r.Pass? && lobbyEntered == old(lobbyEntered) && state.socket.sent == old(state.socket.sent))
    {
      r := Pass;
      if state.startTime > 0.0 {
        return;
      }
      var name := FilterName(inputName);
      if name != inputName {
        inputName := name;
      }
      var ready := Ready(name);
      startShown, controlsShown := ready, ready;
      if ready && key == Some("Enter") {
        r := EnterLobby();
      }
    }

    /** `updatePlayers(total, max)`: the lobby shows `total of max`. */
    method UpdatePlayers(total: int, max: int)
      modifies this`lobbyPlayers
      ensures lobbyPlayers == Some((total, max))
    {
      lobbyPlayers := Some((total, max));
    }

    /**
     * `startGame()` at time `now`: the splash goes, the player takes the typed
     * name, the start time is recorded and a canvas click will ask for full
     * screen.  (The music is not modelled.)
     */
    method StartGame(now: real)
      modifies this`splashRemoved, this`canvasClickArmed, state.player`name, state`startTime
      ensures splashRemoved && canvasClickArmed
      ensures state.player.name == inputName && state.startTime == now
    {
      splashRemoved := true;
      state.player.name := inputName;
      state.startTime := now;
      canvasClickArmed := true;
    }

    /** A click on the canvas: full screen and pointer lock, unless the game has failed. */
    method ClickCanvas()
      modifies this`fullscreen, this`pointerLock
      ensures canvasClickArmed && state.error.None? ==> fullscreen && pointerLock
      ensures !(canvasClickArmed && state.error.None?) ==> fullscreen == old(fullscreen) && pointerLock == old(pointerLock)
    {
      if !canvasClickArmed || state.error.Some? {
        return;
      }
      fullscreen, pointerLock := true, true;
    }

    /**
     * `showError(message)`: only the first error counts.  It is recorded in the
     * state, the splash goes, the overlay shows the message, and full screen and
     * pointer lock are released; later errors change nothing.
     */
    method ShowError(message: string)
      modifies state`error, this`splashRemoved, this`errorShown, this`errorText, this`fullscreen, this`pointerLock
      ensures old(state.error).Some? ==> state.error == old(state.error) && unchanged(this)
      ensures old(state.error).None? ==>
        && state.error == Some(message) && splashRemoved && errorShown && errorText == message
        && !fullscreen && !pointerLock
    {
      if state.error.Some? {
        return;
      }
      state.error := Some(message);
      splashRemoved := true;
      errorShown, errorText := true, message;
      fullscreen, pointerLock := false, false;
    }
  }
}
