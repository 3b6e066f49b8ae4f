/** The match bookkeeping of the network manager: the chat log, the room list and join
    status, the kill table and the match clock, all updated in place. */
module Match {
  import opened Wrappers
  import opened Text
  import opened ChatLog
  import opened Leaderboard

  /** The match clock as the two flags make it behave: once the finish flag is set, every
      later frame update does nothing, whatever the start flag says. */
  datatype Phase = Idle | Running | Finished
  {
    function Rank(): nat
    {
      match this
      case Idle => 0
      case Running => 1
      case Finished => 2
    }
  }

  /** What the result panel shows after the ranking: the standing of the table's rows as
      enumerated in `order` when it has at least two players; otherwise the lookup of
      element 1 fails and the panel keeps `prev`. */
  function Shown(table: map<string, int>, order: seq<string>, prev: Option<Standing>): (r: Option<Standing>)
    requires IsEnumeration(order, table)
    ensures |table| >= 2 ==> r == Results(Entries(table, order))
    ensures |table| < 2 ==> r == prev
  {
    EnumerationSize(order, table);
    if |order| >= 2 then Results(Entries(table, order)) else prev
  }

  const ConnectingText := "Connecting to lobby..."
  const JoiningText := "Joining room..."
  const NotReadyText := "PhotonNetwork connection is not ready, try restart it."

  class NetworkManager {
    /** Match length in time units (a serialized setting, 40 by default). */
    const gameTime: int

    /** The chat queue and the text of the chat panel. */
    var messages: seq<string>
    var messagesLog: string
    /** Every message ever appended, oldest first. */
    ghost var history: seq<string>

    /** The text of the room browser, the status line, the local nickname, and every room
        join that was requested from the networking layer, in order. */
    var roomList: string
    var connectionText: string
    var nickName: string
    var joinRequests: seq<string>

    /** The kill table. */
    var players: map<string, int>

    /** The match clock. */
    var isGameStart: bool
    var isGameFinish: bool
    var timer: int

    /** The texts of the result panel, once a finished match had at least two players. */
    var results: Option<Standing>

    ghost predicate Valid()
      reads this
    {
      && messages == Recent(history)
      && |messages| <= Capacity
      && messagesLog == Render(messages)
      && forall n :: n in players ==> players[n] >= 0
    }

    function CurrentPhase(): Phase
      reads this
    {
      if isGameFinish then Finished else if isGameStart then Running else Idle
    }

    /** The state when the script starts: empty chat and table, the clock loaded but idle. */
    constructor (gameTime: int)
      ensures Valid()
      ensures this.gameTime == gameTime
      ensures messages == [] && history == [] && messagesLog == ""
      ensures roomList == "" && connectionText == ConnectingText && joinRequests == []
      ensures players == map[]
      ensures timer == gameTime && !isGameStart && !isGameFinish && CurrentPhase() == Idle
      ensures results == None
    {
      this.gameTime := gameTime;
      messages, messagesLog, history := [], "", [];
      roomList, connectionText, nickName, joinRequests := "", ConnectingText, "", [];
      players := map[];
      isGameStart, isGameFinish, timer := false, false, gameTime;
      results := None;
    }

    /** A chat message arrives: it is enqueued, the oldest message is dequeued when the queue
        then holds more than `Capacity`, and the chat panel is rebuilt line by line. */
    method AddMessage(message: string)
      requires Valid()
      modifies this`messages, this`messagesLog, this`history
      ensures Valid()
      ensures history == old(history) + [message]
      ensures |old(messages)| < Capacity ==> messages == old(messages) + [message]
      ensures |old(messages)| == Capacity ==> messages == old(messages)[1..] + [message]
      ensures messagesLog == Render(Recent(history))
    {
      RecentStep(history, message);
      history := history + [message];
      messages := messages + [message];
      if |messages| > Capacity {
        messages := messages[1..];
      }
      messagesLog := RenderLines(messages);
    }

    /** The room list changed: the browser shows each room name on its own line, in order. */
    method OnRoomListUpdate(rooms: seq<string>)
      requires Valid()
      modifies this`roomList
      ensures Valid()
      ensures roomList == Render(rooms)
    {
      roomList := RenderLines(rooms);
    }

    /** The join button: the nickname is taken from the input field; a join of the named room
        is requested only when the connection is ready, otherwise the status line says so. */
    method JoinRoom(ready: bool, userName: string, roomName: string)
      requires Valid()
      modifies this`connectionText, this`nickName, this`joinRequests
      ensures Valid()
      ensures nickName == userName
      ensures ready ==> joinRequests == old(joinRequests) + [roomName] && connectionText == JoiningText
      ensures !ready ==> joinRequests == old(joinRequests) && connectionText == NotReadyText
    {
      connectionText := JoiningText;
      nickName := userName;
      if ready {
        joinRequests := joinRequests + [roomName];
      } else {
        connectionText := NotReadyText;
      }
    }

    /** Starts a match for the given player list: every listed nickname gets count 0 (reset if
        present, added if not); the clock is loaded and started only when it is not running. */
    method StartGame(playerList: seq<string>)
      requires Valid()
      modifies this`players, this`timer, this`isGameStart
      ensures Valid()
      ensures players == ResetRoster(old(players), playerList)
      ensures isGameStart
      ensures old(isGameStart) ==> timer == old(timer)
      ensures !old(isGameStart) ==> timer == gameTime
      ensures old(CurrentPhase()).Rank() <= CurrentPhase().Rank()
    {
      var i := 0;
      while i < |playerList|
        invariant 0 <= i <= |playerList|
        invariant players == ResetRoster(old(players), playerList[..i])
        invariant forall n :: n in players ==> players[n] >= 0
        invariant timer == old(timer) && isGameStart == old(isGameStart)
      {
        var name := playerList[i];
        assert playerList[..i + 1] == playerList[..i] + [name];
        ResetRosterSnoc(old(players), playerList[..i], name);
        // Both branches of the source store 0: overwrite when present, add when absent.
        players := players[name := 0];
        i := i + 1;
      }
      assert playerList[..i] == playerList;
      if isGameStart {
        return;
      }
      timer := gameTime;
      isGameStart := true;
    }

    /** One frag for `playerName`: its count goes up by one. A name missing from the table
        makes the lookup fail before anything is written, reported as `found == false`. */
    method AddFrag(playerName: string) returns (found: bool)
      requires Valid()
      modifies this`players
      ensures Valid()
      ensures found <==> playerName in old(players)
      ensures found ==> players == old(players)[playerName := old(players)[playerName] + 1]
      ensures !found ==> players == old(players)
    {
      found := playerName in players;
      if found {
        players := players[playerName := players[playerName] + 1];
      }
    }

    /** Ends the match: the flags say finished; then the table, enumerated in `order` and
        sorted ascending by kills, fills the result panel, which needs at least two rows. */
    method GameFinish(order: seq<string>)
      requires Valid()
      requires IsEnumeration(order, players)
      modifies this`isGameStart, this`isGameFinish, this`results
      ensures Valid()
      ensures !isGameStart && isGameFinish && CurrentPhase() == Finished
      ensures |players| >= 2 ==> results == Results(Entries(players, order))
      ensures |players| < 2 ==> results == old(results)
    {
      isGameStart := false;
      isGameFinish := true;
      results := Shown(players, order, results);
    }

    /** One frame, `elapsed` time units after the previous one. Nothing happens once the match
        is finished or before it starts; while it runs the timer counts down, and the frame
        that brings it to zero or below finishes the match. */
    method Update(elapsed: nat, order: seq<string>)
      requires Valid()
      requires IsEnumeration(order, players)
      modifies this`timer, this`isGameStart, this`isGameFinish, this`results
      ensures Valid()
      ensures old(CurrentPhase()) != Running ==>
                timer == old(timer) && isGameStart == old(isGameStart)
                && isGameFinish == old(isGameFinish) && results == old(results)
      ensures old(CurrentPhase()) == Running ==> timer == old(timer) - elapsed
      ensures old(CurrentPhase()) == Running && timer > 0 ==>
                CurrentPhase() == Running && results == old(results)
      ensures old(CurrentPhase()) == Running && timer <= 0 ==>
                CurrentPhase() == Finished && !isGameStart
                && (|players| >= 2 ==> results == Results(Entries(players, order)))
                && (|players| < 2 ==> results == old(results))
      ensures old(CurrentPhase()).Rank() <= CurrentPhase().Rank()
    {
      if isGameFinish {
        return;
      }
      if isGameStart {
        timer := timer - elapsed;
        if timer <= 0 {
          isGameStart := false;
          GameFinish(order);
        }
      }
    }
  }
}
