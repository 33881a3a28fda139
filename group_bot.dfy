/** The group-manager bot (fun_bot/index.js): a link filter and a `/warn` command that
    share one table of warning counts per user, escalation to a kick at `MaxWarns`, and
    the `/mute`, `/unmute`, `/kick`, `/ban` and `/warns` commands, all of which need a reply
    target.

    Platform calls are not performed here. A handler returns the calls it makes, in order,
    as `Action`s; whether a kick or a restriction succeeds is an input (`apiOk`), and so are
    the sender's member status and the clock. */
module GroupBot {
  import opened Wrappers
  import opened Text

  type UserId = int

  /** After this many warnings the bot tries to kick the user. */
  const MaxWarns: nat := 3

  /** Whether messages with links are deleted and warned. */
  const AntiLinks: bool := true

  /** Minutes a `/mute` lasts when its argument gives no non-zero number. */
  const DefaultMuteMinutes: int := 10

  /** The `status` field of a chat member as the platform reports it. */
  datatype MemberStatus = Creator | Administrator | Member | Restricted | Left | Kicked

  /** Administrators and the creator are never filtered or warned automatically. */
  predicate IsExempt(status: MemberStatus) {
    status == Administrator || status == Creator
  }

  datatype Command = WarnCmd | MuteCmd | UnmuteCmd | KickCmd | BanCmd | WarnsCmd

  /** What the bot says in the chat; the users' display names are left out. */
  datatype Reply =
    | UsageHint(cmd: Command)          // "Reply to a user to ..."
    | NoLinks                          // "links are not allowed!"
    | Warned(count: nat)               // "has been warned (count/MaxWarns)."
    | KickedAfterWarnings              // "has been kicked after MaxWarns warnings."
    | CannotKick                       // "Cannot kick user. Make sure I am admin."
    | MutedFor(minutes: int)           // "muted for minutes minutes."
    | CannotMute
    | Unmuted
    | CannotUnmute
    | KickedByAdmin
    | Banned
    | CannotBan
    | WarnCount(count: nat)            // "has count/MaxWarns warnings."

  /** One call the handler makes on the platform (or the console). */
  datatype Action =
    | DeleteMessage
    | Send(reply: Reply)
    | KickMember(user: UserId)
    | RestrictSending(user: UserId, until: int)
    | LiftRestrictions(user: UserId)
    | LogKickFailure

  /** The warning table after a handler and the calls the handler made. */
  datatype Outcome = Outcome(users: map<UserId, nat>, actions: seq<Action>)

  // ---------------------------------------------------------------------------
  // The link filter's test: /https?:\/\/\S+/i
  // ---------------------------------------------------------------------------

  /** `s` starts with `scheme` (compared case-insensitively; `scheme` is lower case)
      followed by at least one character that is not white space. */
  predicate SchemeThenNonSpace(s: string, scheme: string) {
    |s| > |scheme| && Lower(s[..|scheme|]) == scheme && !IsJsSpace(s[|scheme|])
  }

  /** The pattern matches at index `i` of `text`. */
  predicate LinkAt(text: string, i: int) {
    0 <= i <= |text| &&
    (SchemeThenNonSpace(text[i..], "http://") || SchemeThenNonSpace(text[i..], "https://"))
  }

  lemma LinkAtShift(text: string)
    requires |text| > 0
    ensures forall i :: 0 <= i ==> (LinkAt(text[1..], i) <==> LinkAt(text, i + 1))
  {
    forall i | 0 <= i ensures LinkAt(text[1..], i) <==> LinkAt(text, i + 1) {
      if i <= |text| - 1 {
        assert text[1..][i..] == text[i + 1..];
      }
    }
  }

  /** `text.match(/https?:\/\/\S+/i)` is not null: a left-to-right scan for a match. */
  function HasLink(text: string): (b: bool)
    ensures b <==> exists i :: LinkAt(text, i)
    decreases |text|
  {
    if text == [] then assert forall i :: !LinkAt(text, i); false
    else if LinkAt(text, 0) then true
    else
      LinkAtShift(text);
      assert forall i :: LinkAt(text, i) ==> LinkAt(text[1..], i - 1);
      HasLink(text[1..])
  }

  // ---------------------------------------------------------------------------
  // The warning table
  // ---------------------------------------------------------------------------

  /** `users[userId]?.warns || 0`: the stored count, 0 for a user with no entry. */
  function WarnsOf(users: map<UserId, nat>, id: UserId): nat {
    if id in users then users[id] else 0
  }

  /** `users[id] ||= {warns: 0}; users[id].warns += 1`, followed by the escalation: when
      the new count reaches `MaxWarns` the user is kicked; the count goes back to 0 if the
      kick succeeds and keeps its value if it fails. `onFailure` is what the handler does
      when the kick fails. The returned actions are the escalation's only. */
  function Violation(users: map<UserId, nat>, id: UserId, kickOk: bool, onFailure: Action)
    : (r: Outcome)
    ensures r.users.Keys == users.Keys + {id}
    ensures forall u :: u in users && u != id ==> r.users[u] == users[u]
    ensures WarnsOf(users, id) + 1 < MaxWarns ==>
              r.users[id] == WarnsOf(users, id) + 1 && r.actions == []
    ensures WarnsOf(users, id) + 1 >= MaxWarns && kickOk ==>
              r.users[id] == 0 && r.actions == [KickMember(id), Send(KickedAfterWarnings)]
    ensures WarnsOf(users, id) + 1 >= MaxWarns && !kickOk ==>
              r.users[id] == WarnsOf(users, id) + 1 && r.actions == [KickMember(id), onFailure]
  {
    var warned := users[id := WarnsOf(users, id) + 1];
    if warned[id] >= MaxWarns then
      if kickOk then Outcome(warned[id := 0], [KickMember(id), Send(KickedAfterWarnings)])
      else Outcome(warned, [KickMember(id), onFailure])
    else Outcome(warned, [])
  }

  // ---------------------------------------------------------------------------
  // The handlers as functions of the table and their inputs
  // ---------------------------------------------------------------------------

  /** The `'message'` handler: `text` is absent for messages without text. It acts exactly
      when a non-exempt sender's text has a link: it deletes the message and replies first,
      then adds one to the sender's count (from 0 for a new user); the count goes back to 0
      only when that reaches `MaxWarns` and the kick succeeds. */
  function MessageStep(users: map<UserId, nat>, sender: UserId, status: MemberStatus,
                       text: Option<string>, kickOk: bool): (r: Outcome)
    ensures r.users == users <==> IsExempt(status) || !HasLink(text.GetOr(""))
    ensures r.actions == [] <==> IsExempt(status) || !HasLink(text.GetOr(""))
    ensures !IsExempt(status) && HasLink(text.GetOr("")) ==>
              var count := WarnsOf(users, sender) + 1;
              && |r.actions| >= 2 && r.actions[..2] == [DeleteMessage, Send(NoLinks)]
              && sender in r.users && r.users[sender] == (if count >= MaxWarns && kickOk then 0 else count)
              && (KickMember(sender) in r.actions <==> count >= MaxWarns)
  {
    if IsExempt(status) then Outcome(users, [])
    else if AntiLinks && HasLink(text.GetOr("")) then
      var v := Violation(users, sender, kickOk, LogKickFailure);
      var prefix := [DeleteMessage, Send(NoLinks)];
      assert (prefix + v.actions)[..2] == prefix;
      assert WarnsOf(users, sender) + 1 < MaxWarns ==> prefix + v.actions == prefix;
      assert v.users[sender] != WarnsOf(users, sender) && sender in v.users;
      Outcome(v.users, prefix + v.actions)
    else Outcome(users, [])
  }

  /** `args[1]` of `text.split(' ')`, or nothing when there is no space. */
  function SecondField(text: string): Option<string> {
    var args := Split(text, ' ');
    if |args| >= 2 then Some(args[1]) else None
  }

  /** `parseInt(arg) || 10`: the parsed number unless the argument is missing, `NaN` or 0. */
  function MinutesFrom(arg: Option<string>): (d: int)
    ensures d != 0
    ensures arg.None? || ParseInt(arg.value).None? || ParseInt(arg.value) == Some(0) ==>
              d == DefaultMuteMinutes
    ensures arg.Some? && ParseInt(arg.value).Some? && ParseInt(arg.value).value != 0 ==>
              d == ParseInt(arg.value).value
  {
    var parsed := match arg
                  case Some(a) => ParseInt(a)
                  case None => None;
    if parsed.Some? && parsed.value != 0 then parsed.value else DefaultMuteMinutes
  }

  /** The duration of `/mute`, read from the second space-separated field of its text. */
  function MuteMinutes(text: string): (d: int)
    ensures d != 0
  {
    MinutesFrom(SecondField(text))
  }

  /** A command, issued with `text` as a reply to a message of `replyTo` (if any). */
  function CommandStep(users: map<UserId, nat>, cmd: Command, text: string,
                       replyTo: Option<UserId>, apiOk: bool, now: int): (r: Outcome)
    ensures replyTo.None? ==> r == Outcome(users, [Send(UsageHint(cmd))])
    ensures cmd != WarnCmd ==> r.users == users
  {
    match replyTo
    case None => Outcome(users, [Send(UsageHint(cmd))])
    case Some(id) =>
      match cmd
      case WarnCmd =>
        var count := WarnsOf(users, id) + 1;
        var v := Violation(users, id, apiOk, Send(CannotKick));
        Outcome(v.users, [Send(Warned(count))] + v.actions)
      case MuteCmd =>
        var minutes := MuteMinutes(text);
        Outcome(users, [RestrictSending(id, now + minutes * 60),
                        Send(if apiOk then MutedFor(minutes) else CannotMute)])
      case UnmuteCmd =>
        Outcome(users, [LiftRestrictions(id), Send(if apiOk then Unmuted else CannotUnmute)])
      case KickCmd =>
        Outcome(users, [KickMember(id), Send(if apiOk then KickedByAdmin else CannotKick)])
      case BanCmd =>
        Outcome(users, [KickMember(id), Send(if apiOk then Banned else CannotBan)])
      case WarnsCmd =>
        Outcome(users, [Send(WarnCount(WarnsOf(users, id)))])
  }

  /** One update delivered to the bot. */
  datatype Event =
    | Message(sender: UserId, status: MemberStatus, text: Option<string>)
    | CommandMessage(cmd: Command, commandText: string, replyTo: Option<UserId>)

  /** An event together with what the platform and the clock answer while it is handled. */
  datatype Input = Input(event: Event, apiOk: bool, now: int)

  /** The user whose entry a handler may change: the sender of a message, or the target of
      `/warn`. */
  function Target(input: Input): Option<UserId> {
    match input.event
    case Message(sender, _, _) => Some(sender)
    case CommandMessage(cmd, _, replyTo) => if cmd == WarnCmd then replyTo else None
  }

  /** One handler: no entry is ever removed, and the only one that can appear is the
      target's. */
  function Step(users: map<UserId, nat>, input: Input): (r: Outcome)
    ensures users.Keys <= r.users.Keys
    ensures r.users.Keys <= users.Keys + (if Target(input).Some? then {Target(input).value} else {})
  {
    match input.event
    case Message(sender, status, text) => MessageStep(users, sender, status, text, input.apiOk)
    case CommandMessage(cmd, text, replyTo) =>
      CommandStep(users, cmd, text, replyTo, input.apiOk, input.now)
  }

  /** The warning table after handling `inputs` one at a time, in order. */
  function Run(users: map<UserId, nat>, inputs: seq<Input>): (r: map<UserId, nat>)
    ensures users.Keys <= r.Keys
    decreases |inputs|
  {
    if inputs == [] then users else Run(Step(users, inputs[0]).users, inputs[1..])
  }

  // ---------------------------------------------------------------------------
  // The bot, with the table it updates in place
  // ---------------------------------------------------------------------------

  class GroupManager {
    /** `db.data.users`, reduced to each user's `warns`. */
    var users: map<UserId, nat>

    constructor ()
      ensures users == map[]
    {
      users := map[];
    }

    /** `users[id] ||= {warns: 0}; users[id].warns += 1`, then the kick at `MaxWarns`. */
    method Warn(id: UserId, kickOk: bool, onFailure: Action) returns (actions: seq<Action>)
      modifies this
      ensures Outcome(users, actions) == Violation(old(users), id, kickOk, onFailure)
    {
      if id !in users {
        users := users[id := 0];
      }
      users := users[id := users[id] + 1];
      actions := [];
      if users[id] >= MaxWarns {
        actions := [KickMember(id)];
        if kickOk {
          actions := actions + [Send(KickedAfterWarnings)];
          users := users[id := 0];
        } else {
          actions := actions + [onFailure];
        }
      }
    }

    /** The `'message'` handler: delete a non-exempt sender's message with a link, warn
        them, and kick them at `MaxWarns`; a failed kick is only logged. */
    method OnMessage(sender: UserId, status: MemberStatus, text: Option<string>, kickOk: bool)
      returns (actions: seq<Action>)
      modifies this
      ensures Outcome(users, actions) == MessageStep(old(users), sender, status, text, kickOk)
    {
      var body := text.GetOr("");
      if IsExempt(status) {
        return [];
      }
      actions := [];
      if AntiLinks && HasLink(body) {
        actions := [DeleteMessage, Send(NoLinks)];
        var escalation := Warn(sender, kickOk, LogKickFailure);
        actions := actions + escalation;
      }
    }

    /** `/warn`: warn the author of the replied-to message; a failed kick is reported. */
    method OnWarn(replyTo: Option<UserId>, kickOk: bool) returns (actions: seq<Action>)
      modifies this
      ensures Outcome(users, actions) == CommandStep(old(users), WarnCmd, "/warn", replyTo, kickOk, 0)
    {
      if replyTo.None? {
        return [Send(UsageHint(WarnCmd))];
      }
      var id := replyTo.value;
      var count := WarnsOf(users, id) + 1;
      var escalation := Warn(id, kickOk, Send(CannotKick));
      actions := [Send(Warned(count))] + escalation;
    }

    /** `/mute [minutes]`: restrict the replied-to user until `now + minutes * 60`, where
        `now` is the clock in whole seconds. */
    method OnMute(replyTo: Option<UserId>, text: string, now: int, restrictOk: bool)
      returns (actions: seq<Action>)
      ensures actions == CommandStep(users, MuteCmd, text, replyTo, restrictOk, now).actions
      ensures replyTo.None? ==> actions == [Send(UsageHint(MuteCmd))]
      ensures replyTo.Some? ==>
        actions == [RestrictSending(replyTo.value, now + MuteMinutes(text) * 60),
                    Send(if restrictOk then MutedFor(MuteMinutes(text)) else CannotMute)]
    {
      if replyTo.None? {
        return [Send(UsageHint(MuteCmd))];
      }
      var duration := MuteMinutes(text);
      var until := now + duration * 60;
      var reply := if restrictOk then MutedFor(duration) else CannotMute;
      actions := [RestrictSending(replyTo.value, until), Send(reply)];
    }

    /** `/warns`: report the replied-to user's count without changing it. */
    method OnWarns(replyTo: Option<UserId>) returns (actions: seq<Action>)
      ensures actions == CommandStep(users, WarnsCmd, "/warns", replyTo, true, 0).actions
      ensures replyTo.None? ==> actions == [Send(UsageHint(WarnsCmd))]
      ensures replyTo.Some? && replyTo.value in users ==>
                actions == [Send(WarnCount(users[replyTo.value]))]
      ensures replyTo.Some? && replyTo.value !in users ==> actions == [Send(WarnCount(0))]
    {
      if replyTo.None? {
        return [Send(UsageHint(WarnsCmd))];
      }
      var warns := WarnsOf(users, replyTo.value);
      actions := [Send(WarnCount(warns))];
    }
  }
}
