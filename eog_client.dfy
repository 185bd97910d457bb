/**
 * The command side of the EOG client (game/eog_client.py): the mapping from
 * the six EOG classes to game commands, the validation of a received
 * message, and one tick of the rate-limited command queue.
 *
 * The socket, the JSON decoding and the two threads are not modelled: a
 * received message arrives already decoded, the clock reading is a
 * parameter, and the forwarded command is returned instead of being passed
 * to the game object.
 */
module EogClient {
  import opened Wrappers

  /** Seconds that must pass between two handled commands. */
  const CommandInterval: real := 1.0

  /** The seven command names `_handle_command` accepts. */
  const ValidCommands: seq<string> := ["left", "right", "up", "down", "center", "blink", "idle"]

  /** What `command_data.get("command", ...)` finds in a decoded message. */
  datatype CommandField = Missing | Text(text: string) | NotText

  /** A decoded JSON value: an object (only its "command" entry matters) or anything else. */
  datatype CommandData = Message(command: CommandField) | NotAnObject

  /**
   * `_map_eog_to_game_command`: left and right move, blink shoots, and
   * every other name (center, up, down, idle, ...) means idle.
   */
  function MapEogToGameCommand(eogCommand: string): (gameCommand: string)
    ensures gameCommand in ["left", "right", "blink", "idle"]
    ensures eogCommand in ["left", "right", "blink", "idle"] <==> gameCommand == eogCommand
  {
    if eogCommand == "left" then "left"
    else if eogCommand == "right" then "right"
    else if eogCommand == "blink" then "blink"
    else "idle"
  }

  /** Mapping an already mapped command changes nothing. */
  lemma MapIdempotent(eogCommand: string)
    ensures MapEogToGameCommand(MapEogToGameCommand(eogCommand)) == MapEogToGameCommand(eogCommand)
  {
  }

  /** The vertical and centre classes, and idle itself, all become idle. */
  lemma MapCollapsesToIdle(eogCommand: string)
    ensures eogCommand in ["up", "down", "center", "idle"] ==> MapEogToGameCommand(eogCommand) == "idle"
  {
  }

  /**
   * `str.lower` restricted to what decides validity: ASCII capitals and
   * the Kelvin sign (U+212A, which lower-cases to `k`) are the only
   * characters whose lower case is a single ASCII letter; every other
   * character is kept.
   */
  function LowerChar(c: char): (l: char)
    ensures 'a' <= l <= 'z' ==> 'a' <= c <= 'z' || 'A' <= c <= 'Z' || c == '\U{212A}'
  {
    if 'A' <= c <= 'Z' then (c as int - 'A' as int + 'a' as int) as char
    else if c == '\U{212A}' then 'k'
    else c
  }

  function Lower(s: string): (r: string)
    ensures |r| == |s|
    ensures forall i :: 0 <= i < |s| ==> r[i] == LowerChar(s[i])
  {
    if |s| == 0 then [] else [LowerChar(s[0])] + Lower(s[1..])
  }

  /** Lower-casing a string that is already in lower case changes nothing. */
  lemma LowerOfLowerCase(s: string)
    requires forall i :: 0 <= i < |s| ==> 'a' <= s[i] <= 'z'
    ensures Lower(s) == s
  {
  }

  /**
   * The command name `_handle_command` validates: the "command" entry
   * lower-cased, "idle" when it is missing; `None` when the message is not
   * an object or the entry is not a string (both raise and are swallowed).
   */
  function CommandName(data: CommandData): (name: Option<string>)
    ensures data.NotAnObject? || data.command.NotText? ==> name == None
    ensures data.Message? && data.command.Missing? ==> name == Some("idle")
  {
    match data
    case NotAnObject => None
    case Message(field) =>
      match field
      case Missing => Some("idle")
      case Text(text) => Some(Lower(text))
      case NotText => None
  }

  /**
   * `_handle_command`: the game command forwarded to the game, if any. A
   * command is forwarded only when its name is valid and the game is
   * running; it is the mapped name.
   */
  function HandleCommand(data: CommandData, gameActive: bool): (forwarded: Option<string>)
    ensures forwarded.Some? <==> gameActive && CommandName(data).Some? && CommandName(data).value in ValidCommands
    ensures forwarded.Some? ==> forwarded.value == MapEogToGameCommand(CommandName(data).value)
  {
    var name := CommandName(data);
    if name.None? || name.value !in ValidCommands then None
    else if gameActive then Some(MapEogToGameCommand(name.value))
    else None
  }

  /** A message without a command entry reaches a running game as idle. */
  lemma MissingCommandIsIdle(gameActive: bool)
    ensures HandleCommand(Message(Missing), gameActive) == if gameActive then Some("idle") else None
  {
  }

  /** Capitalisation does not matter: an all-capitals name is accepted. */
  lemma UpperCaseAccepted()
    ensures HandleCommand(Message(Text("LEFT")), true) == Some("left")
  {
    assert Lower("LEFT") == "left";
  }

  /** Only the lower-cased name counts: any spelling is handled as its lower case is. */
  lemma CaseInsensitive(text: string, gameActive: bool)
    ensures HandleCommand(Message(Text(text)), gameActive) == HandleCommand(Message(Text(Lower(text))), gameActive)
  {
    var l := Lower(text);
    assert Lower(l) == l by {
      forall i | 0 <= i < |l|
        ensures Lower(l)[i] == l[i]
      {
        assert l[i] == LowerChar(text[i]);
      }
    }
  }

  /** Python's `lower` maps the Kelvin sign to `k`, so it spells a command too. */
  lemma KelvinSignAccepted()
    ensures HandleCommand(Message(Text("BLIN\U{212A}")), true) == Some("blink")
  {
    assert Lower("BLIN\U{212A}") == "blink";
  }

  /** An unknown name is dropped, and so is a known one while the game is stopped. */
  lemma NotForwarded(text: string)
    ensures HandleCommand(Message(Text(text)), false) == None
    ensures Lower(text) !in ValidCommands ==> HandleCommand(Message(Text(text)), true) == None
  {
  }

  class EOGClient {
    /** The FIFO `queue.Queue` filled by the receive thread. */
    var commandQueue: seq<CommandData>
    var lastCommandTime: real

    constructor ()
      ensures commandQueue == [] && lastCommandTime == 0.0
    {
      commandQueue := [];
      lastCommandTime := 0.0;
    }

    /** `command_queue.put(command_data)` for one received, decoded line. */
    method Enqueue(data: CommandData)
      modifies this`commandQueue
      ensures commandQueue == old(commandQueue) + [data]
    {
      commandQueue := commandQueue + [data];
    }

    /**
     * One pass of the `_process_commands` loop at clock reading `now`. Once
     * the interval has passed and the queue is not empty, the OLDEST queued
     * message is handled, the time is recorded and every other queued
     * message is discarded; otherwise nothing changes.
     */
    method ProcessTick(now: real, gameActive: bool) returns (forwarded: Option<string>)
      modifies this
      ensures now - old(lastCommandTime) >= CommandInterval && old(commandQueue) != [] ==>
        && forwarded == HandleCommand(old(commandQueue)[0], gameActive)
        && commandQueue == []
        && lastCommandTime == now
      ensures !(now - old(lastCommandTime) >= CommandInterval && old(commandQueue) != []) ==>
        && forwarded == None
        && commandQueue == old(commandQueue)
        && lastCommandTime == old(lastCommandTime)
    {
      forwarded := None;
      if now - lastCommandTime >= CommandInterval {
        if |commandQueue| > 0 {
          var commandData := commandQueue[0];
          commandQueue := commandQueue[1..];
          forwarded := HandleCommand(commandData, gameActive);
          lastCommandTime := now;
          while |commandQueue| > 0
            invariant lastCommandTime == now
            decreases |commandQueue|
          {
            commandQueue := commandQueue[1..];
          }
        }
      }
    }
  }

  /**
   * Two messages queued between ticks: only the first reaches the game,
   * the second is discarded, and a tick within the next second does nothing.
   */
  method TwoMessagesOneCommand(first: CommandData, second: CommandData, now: real)
    returns (forwardedFirst: Option<string>, forwardedLater: Option<string>)
    requires now >= CommandInterval
    ensures forwardedFirst == HandleCommand(first, true)
    ensures forwardedLater == None
  {
    var client := new EOGClient();
    client.Enqueue(first);
    client.Enqueue(second);
    forwardedFirst := client.ProcessTick(now, true);
    client.Enqueue(second);
    forwardedLater := client.ProcessTick(now + 0.5, true);
  }
}
