/** What the group-manager bot's warning table does over one handler and over a run of
    handlers: only the target's entry moves, it moves by one or back to 0 after a
    successful kick, a failed kick lets it grow past `MaxWarns` without bound, and it
    stays below `MaxWarns` as long as every kick succeeds. */
module GroupBotProps {
  import opened Wrappers
  import opened Text
  import opened GroupBot

  /** `/warn` as a reply adds one to the target's count, says so with the new count before
      any kick, and resets the count only after a successful kick at `MaxWarns`. */
  lemma WarnCommandWarnsTarget(users: map<UserId, nat>, text: string, id: UserId,
                               kickOk: bool, now: int)
    ensures var r := CommandStep(users, WarnCmd, text, Some(id), kickOk, now);
            var count := WarnsOf(users, id) + 1;
            && r.actions[0] == Send(Warned(count))
            && r.users[id] == (if count >= MaxWarns && kickOk then 0 else count)
            && (count >= MaxWarns ==> r.actions[1] == KickMember(id) &&
                                      r.actions[2] == Send(if kickOk then KickedAfterWarnings
                                                           else CannotKick))
            && (count < MaxWarns ==> |r.actions| == 1)
  {
  }

  /** Whatever the event, no entry but the handler's target changes, and no entry is
      added for anyone else. */
  lemma StepTouchesOnlyTarget(users: map<UserId, nat>, input: Input, u: UserId)
    requires Target(input) != Some(u)
    ensures var after := Step(users, input).users;
            (u in after <==> u in users) && WarnsOf(after, u) == WarnsOf(users, u)
  {
  }

  /** A count only ever grows by one, or returns to 0 when a kick at `MaxWarns` succeeds. */
  lemma StepGrowsByOneOrResets(users: map<UserId, nat>, input: Input, u: UserId)
    ensures var before, after := WarnsOf(users, u), WarnsOf(Step(users, input).users, u);
            || after == before
            || (after == before + 1 && Target(input) == Some(u))
            || (after == 0 && before + 1 >= MaxWarns && input.apiOk && Target(input) == Some(u))
  {
    if Target(input) != Some(u) {
      StepTouchesOnlyTarget(users, input, u);
    }
  }

  // ---------------------------------------------------------------------------
  // Runs where every kick succeeds
  // ---------------------------------------------------------------------------

  predicate AllBelowMax(users: map<UserId, nat>) {
    forall u :: u in users ==> users[u] < MaxWarns
  }

  /** Any kick the handler of `input` attempts succeeds; the calls of `/mute`, `/unmute`,
      `/kick` and `/ban` may fail. */
  predicate KicksSucceed(input: Input) {
    Target(input).Some? ==> input.apiOk
  }

  lemma StepKeepsBelowMax(users: map<UserId, nat>, input: Input)
    requires AllBelowMax(users)
    requires KicksSucceed(input)
    ensures AllBelowMax(Step(users, input).users)
  {
    var after := Step(users, input).users;
    forall u | u in after ensures after[u] < MaxWarns {
      StepGrowsByOneOrResets(users, input, u);
    }
  }

  /** When every kick succeeds, every stored count stays below `MaxWarns`. */
  lemma {:induction false} AllKicksSucceedKeepsBelowMax(users: map<UserId, nat>,
                                                        inputs: seq<Input>)
    requires AllBelowMax(users)
    requires forall i :: 0 <= i < |inputs| ==> KicksSucceed(inputs[i])
    ensures AllBelowMax(Run(users, inputs))
    decreases |inputs|
  {
    if inputs != [] {
      StepKeepsBelowMax(users, inputs[0]);
      AllKicksSucceedKeepsBelowMax(Step(users, inputs[0]).users, inputs[1..]);
    }
  }

  /** From the empty table the bot starts with, and with every kick succeeding, the counts
      are below `MaxWarns` after each handler. */
  lemma BelowMaxAfterEveryHandler(inputs: seq<Input>)
    requires forall i :: 0 <= i < |inputs| ==> KicksSucceed(inputs[i])
    ensures forall k :: 0 <= k <= |inputs| ==> AllBelowMax(Run(map[], inputs[..k]))
  {
    forall k | 0 <= k <= |inputs| ensures AllBelowMax(Run(map[], inputs[..k])) {
      AllKicksSucceedKeepsBelowMax(map[], inputs[..k]);
    }
  }

  // ---------------------------------------------------------------------------
  // Runs where kicks fail
  // ---------------------------------------------------------------------------

  /** The input is a violation by `id` (a link from a non-exempt sender, or `/warn` in
      reply to them) during which the platform refuses every call. */
  predicate FailingViolation(input: Input, id: UserId) {
    !input.apiOk &&
    match input.event
    case Message(sender, status, text) =>
      sender == id && !IsExempt(status) && HasLink(text.GetOr(""))
    case CommandMessage(cmd, _, replyTo) => cmd == WarnCmd && replyTo == Some(id)
  }

  /** Every violation whose kick fails adds one: the count is not capped at `MaxWarns`. */
  lemma {:induction false} FailedKicksAccumulate(users: map<UserId, nat>, id: UserId,
                                                 inputs: seq<Input>)
    requires forall i :: 0 <= i < |inputs| ==> FailingViolation(inputs[i], id)
    ensures WarnsOf(Run(users, inputs), id) == WarnsOf(users, id) + |inputs|
    decreases |inputs|
  {
    if inputs != [] {
      var next := Step(users, inputs[0]).users;
      assert WarnsOf(next, id) == WarnsOf(users, id) + 1;
      FailedKicksAccumulate(next, id, inputs[1..]);
    }
  }

  /** A member at 2 warnings who posts two links while kicks fail ends at 3 and then at 4,
      with a kick tried both times: `warns <= MaxWarns` is not an invariant of the bot. */
  lemma CountExceedsMaxWhenKickFails(id: UserId, text: string)
    requires HasLink(text)
    ensures var once := MessageStep(map[id := 2], id, Member, Some(text), false);
            var twice := MessageStep(once.users, id, Member, Some(text), false);
            && once.users[id] == MaxWarns
            && KickMember(id) in once.actions
            && twice.users[id] == MaxWarns + 1
            && KickMember(id) in twice.actions
  {
    var once := MessageStep(map[id := 2], id, Member, Some(text), false);
    assert once.actions[2] == KickMember(id);
    var twice := MessageStep(once.users, id, Member, Some(text), false);
    assert twice.actions[2] == KickMember(id);
  }

  // ---------------------------------------------------------------------------
  // The link test
  // ---------------------------------------------------------------------------

  /** Matching ignores case. */
  lemma HasLinkIgnoresCase(text: string)
    ensures HasLink(Lower(text)) == HasLink(text)
  {
    forall i | 0 <= i <= |text| ensures LinkAt(Lower(text), i) == LinkAt(text, i) {
      var l := Lower(text);
      assert l[i..] == Lower(text[i..]);
      forall scheme: string | |text[i..]| > |scheme|
        ensures SchemeThenNonSpace(l[i..], scheme) == SchemeThenNonSpace(text[i..], scheme)
      {
        assert l[i..][..|scheme|] == Lower(text[i..][..|scheme|]);
        assert Lower(Lower(text[i..][..|scheme|])) == Lower(text[i..][..|scheme|]);
        LowerKeepsSpace(text[i..][|scheme|]);
      }
    }
    if HasLink(text) {
      var i :| LinkAt(text, i);
      assert LinkAt(Lower(text), i);
    }
    if HasLink(Lower(text)) {
      var i :| LinkAt(Lower(text), i);
      assert LinkAt(text, i);
    }
  }

  /** A link anywhere in a message is found, whatever surrounds it. */
  lemma HasLinkInContext(before: string, text: string, after: string)
    requires HasLink(text)
    ensures HasLink(before + text + after)
  {
    var i :| LinkAt(text, i);
    var whole := before + text + after;
    assert whole[|before| + i..] == text[i..] + after;
    assert LinkAt(whole, |before| + i);
  }

  /** Every match starts with the letter h, in either case. */
  lemma LinkStartsWithH(text: string, i: int)
    requires LinkAt(text, i)
    ensures i < |text| && LowerChar(text[i]) == 'h'
  {
    var s := text[i..];
    var n := if SchemeThenNonSpace(s, "http://") then 7 else 8;
    var head := s[..n];
    assert Lower(head)[0] == 'h';
    assert head[0] == text[i];
  }

  /** Text in which no letter h after `from` starts a scheme has no link. */
  lemma NoLinkWithoutH(text: string, from: nat)
    requires forall k :: from <= k < |text| ==> LowerChar(text[k]) != 'h'
    requires forall i :: 0 <= i < from ==> !LinkAt(text, i)
    ensures !HasLink(text)
  {
    if HasLink(text) {
      var i :| LinkAt(text, i);
      LinkStartsWithH(text, i);
    }
  }

  lemma NoLinkAtSchemeThenSpace(text: string, space: char)
    requires IsJsSpace(space) && |text| >= 8 && text[..8] == "http://" + [space]
    ensures !LinkAt(text, 0)
  {
    assert text[0..] == text;
    var head := text[..8];
    assert head[4] == ':';
    assert Lower(head)[4] == ':';
  }

  /** A scheme followed by white space is not a link: `\S+` needs at least one
      character that is not white space. */
  lemma SchemeThenSpaceIsNoLink(text: string, space: char, rest: string)
    requires IsJsSpace(space)
    requires forall k :: 0 <= k < |rest| ==> LowerChar(rest[k]) != 'h'
    requires text == "http://" + [space] + rest
    ensures !HasLink(text)
  {
    assert text[..8] == "http://" + [space];
    NoLinkAtSchemeThenSpace(text, space);
    forall k | 1 <= k < |text| ensures LowerChar(text[k]) != 'h' {
      if k >= 8 { assert text[k] == rest[k - 8]; }
    }
    NoLinkWithoutH(text, 1);
  }

  // ---------------------------------------------------------------------------
  // `/mute`
  // ---------------------------------------------------------------------------

  /** The second field of a command and one argument, neither containing a space. */
  /** A text has a second field exactly when it contains a space, and that field holds
      no space. */
  lemma SecondFieldIffSpace(text: string)
    ensures SecondField(text).None? <==> ' ' !in text
    ensures SecondField(text).Some? ==> ' ' !in SecondField(text).value
  {
    var args := Split(text, ' ');
    JoinSplit(text, ' ');
    if |args| >= 2 {
      assert text == args[0] + [' '] + Join(args[1..], ' ');
      assert text[|args[0]|] == ' ';
    }
  }

  /** `args[1]` of a text with more fields after the second: `/mute 5 minutes` reads `5`,
      and `/mute  5` (two spaces) reads the empty field between them. */
  lemma SecondFieldOfMore(cmd: string, arg: string, more: string)
    requires ' ' !in cmd && ' ' !in arg
    ensures SecondField(cmd + " " + arg + " " + more) == Some(arg)
  {
    var tail := Split(more, ' ');
    JoinSplit(more, ' ');
    var parts := [cmd, arg] + tail;
    assert parts[1..] == [arg] + tail;
    assert parts[1..][1..] == tail;
    assert Join(parts, ' ') == cmd + " " + arg + " " + more;
    SplitJoin(parts, ' ');
  }

  lemma SecondFieldOf(cmd: string, arg: string)
    requires ' ' !in cmd && ' ' !in arg
    ensures SecondField(cmd + " " + arg) == Some(arg)
  {
    SplitJoin([cmd, arg], ' ');
    assert Join([cmd, arg], ' ') == cmd + " " + arg;
  }

  /** `/mute` with no argument mutes for 10 minutes. */
  lemma MuteWithoutArgument(text: string)
    requires ' ' !in text
    ensures MuteMinutes(text) == DefaultMuteMinutes
  {
    SplitJoin([text], ' ');
  }

  /** The duration of `/mute` depends only on its second field. */
  lemma MuteMinutesOf(cmd: string, arg: string)
    requires ' ' !in cmd && ' ' !in arg
    ensures MuteMinutes(cmd + " " + arg) == MinutesFrom(Some(arg))
  {
    SecondFieldOf(cmd, arg);
  }

  /** `/mute` whose argument is no number (`/mute abc`, `/mute x5`, `/mute -`, or an empty
      field after a trailing space) mutes for 10 minutes. */
  lemma MuteWithWord(cmd: string, word: string)
    requires ' ' !in cmd && ' ' !in word
    requires word == [] || !IsJsSpace(word[0])
    requires var u := if |word| > 0 && (word[0] == '-' || word[0] == '+') then word[1..] else word;
             u == [] || !('0' <= u[0] <= '9')
    ensures MuteMinutes(cmd + " " + word) == DefaultMuteMinutes
  {
    MuteMinutesOf(cmd, word);
    NoDigitsIsNaN(word);
  }

  /** With more fields, the duration is still read from the second one alone; an empty
      second field (two spaces after the command) gives 10 minutes. */
  lemma MuteMinutesOfMore(cmd: string, arg: string, more: string)
    requires ' ' !in cmd && ' ' !in arg
    ensures MuteMinutes(cmd + " " + arg + " " + more) == MinutesFrom(Some(arg))
    ensures arg == "" ==> MuteMinutes(cmd + " " + arg + " " + more) == DefaultMuteMinutes
  {
    SecondFieldOfMore(cmd, arg, more);
    if arg == "" {
      NoDigitsIsNaN(arg);
    }
  }

  lemma DecimalHasNoSpace(n: nat, suffix: string)
    requires ' ' !in suffix
    ensures ' ' !in DecimalString(n) + suffix
    ensures ' ' !in "-" + DecimalString(n) + suffix
  {
    var ds := DecimalString(n);
    DecimalStringValue(n);
    forall k | 0 <= k < |ds| ensures ds[k] != ' ' {
      assert DigitValue(ds[k]) < 10;
    }
  }

  /** `/mute n` mutes for `n` minutes, except `/mute 0`, which mutes for 10; whatever follows
      the number up to the next space is ignored. */
  lemma MuteWithNumber(cmd: string, n: nat, suffix: string)
    requires ' ' !in cmd && ' ' !in suffix
    requires suffix == [] || (DigitValue(suffix[0]) >= 10 && suffix[0] != 'x' && suffix[0] != 'X')
    ensures MuteMinutes(cmd + " " + (DecimalString(n) + suffix)) == if n == 0 then 10 else n
  {
    DecimalHasNoSpace(n, suffix);
    MuteMinutesOf(cmd, DecimalString(n) + suffix);
    ParseDecimal(n, suffix);
  }

  /** `/mute -n` is not rejected: it yields a negative duration, so the restriction ends
      before `now`. */
  lemma MuteWithNegativeNumber(cmd: string, n: nat, now: int)
    requires ' ' !in cmd && n > 0
    ensures MuteMinutes(cmd + " " + ("-" + DecimalString(n))) == -(n as int)
    ensures now + MuteMinutes(cmd + " " + ("-" + DecimalString(n))) * 60 < now
  {
    DecimalHasNoSpace(n, "");
    assert "-" + DecimalString(n) + "" == "-" + DecimalString(n);
    MuteMinutesOf(cmd, "-" + DecimalString(n));
    ParseNegativeDecimal(n);
  }
}
