/**
 * The `interactionCreate` handler of `events/interactionCreate.js`: routes an
 * interaction to its slash command, enforces the per-command, per-user
 * cooldown kept in a module-level map, checks the user's and then the bot's
 * permissions, runs the command, and reports any error through `safeReply`.
 * What the handler does to the platform is returned as the list of calls it
 * makes; the command's own work is the single call `RanCommand`.
 */
module InteractionCreate {
  import opened Js

  datatype Kind = ApplicationCommand | Autocomplete | OtherKind

  /** A registered slash command: only what the dispatcher reads of it. */
  datatype Command = Command(
    name: string,
    cooldown: Option<int>,
    userPerms: Option<seq<string>>,
    botPerms: Option<seq<string>>,
    hasAutocomplete: bool)

  /**
   * An incoming interaction. `memberPermissions` and `botPermissions` are
   * `None` where Discord gives no permission set (outside a guild).
   */
  datatype Interaction = Interaction(
    kind: Kind,
    commandName: string,
    userId: string,
    replied: bool,
    deferred: bool,
    memberPermissions: Option<set<string>>,
    botPermissions: Option<set<string>>)

  datatype Payload =
    | CooldownNotice(remaining: int)
    | MissingUserPerms
    | MissingBotPerms
    | UnexpectedError

  datatype Effect =
    | RanAutocomplete(command: string)
    | Reply(payload: Payload)
    | FollowUp(payload: Payload)
    | RanCommand(command: string)

  /** How the command's own `run` ended, and the interaction's flags if it threw. */
  datatype RunOutcome = Completed | Threw(replied: bool, deferred: bool)

  /**
   * `safeReply`: a first response is a `reply`, anything after a reply or a
   * deferral is a `followUp`. Its failure is caught and logged, so it never
   * throws.
   */
  function SafeReply(replied: bool, deferred: bool, p: Payload): (e: Effect)
    ensures e == Reply(p) <==> !replied && !deferred
    ensures e == FollowUp(p) <==> replied || deferred
  {
    if !replied && !deferred then Reply(p) else FollowUp(p)
  }

  /** `slash-<command name>-<user id>`: the prefix, the name, a dash, then the user id at the end. */
  function CooldownKey(name: string, userId: string): (k: string)
    ensures StartsWith(k, "slash-")
    ensures |k| == 7 + |name| + |userId|
    ensures k[6..6 + |name|] == name && k[6 + |name|] == '-'
    ensures k[|k| - |userId|..] == userId
  {
    "slash-" + name + "-" + userId
  }

  /** `slashCommand.cooldown` is truthy. */
  predicate HasCooldown(c: Command) {
    c.cooldown.Some? && c.cooldown.value != 0
  }

  /** `existingCooldown && Date.now() < existingCooldown`. */
  predicate Active(m: map<string, int>, key: string, now: int) {
    key in m && m[key] != 0 && now < m[key]
  }

  datatype CooldownDecision = Blocked(remaining: int) | Proceed(next: map<string, int>)

  /**
   * The cooldown step. A command with a cooldown whose entry for this user is
   * still running is blocked with the time left and the map unchanged;
   * otherwise the entry is (re)set to `now + cooldown`. A command without a
   * cooldown proceeds with the map unchanged.
   */
  function CooldownStep(m: map<string, int>, c: Command, userId: string, now: int): (d: CooldownDecision)
    ensures d.Blocked? <==> HasCooldown(c) && Active(m, CooldownKey(c.name, userId), now)
    ensures d.Blocked? ==> d.remaining > 0
    ensures d.Proceed? && HasCooldown(c) ==>
      d.next == m[CooldownKey(c.name, userId) := now + c.cooldown.value]
    ensures !HasCooldown(c) ==> d == Proceed(m)
  {
    var key := CooldownKey(c.name, userId);
    if HasCooldown(c) then
      if Active(m, key, now) then Blocked(m[key] - now)
      else Proceed(m[key := now + c.cooldown.value])
    else Proceed(m)
  }

  /** An entry that has run out behaves exactly like no entry at all. */
  lemma ExpiredIsAbsent(m: map<string, int>, c: Command, userId: string, now: int)
    requires !Active(m, CooldownKey(c.name, userId), now)
    ensures CooldownStep(m, c, userId, now) ==
      CooldownStep(if HasCooldown(c) then m - {CooldownKey(c.name, userId)} else m, c, userId, now)
  {
    var key := CooldownKey(c.name, userId);
    if HasCooldown(c) {
      var v := now + c.cooldown.value;
      assert (m - {key})[key := v] == m[key := v];
    }
  }

  /** The cooldown step changes no entry but the one of this command and user. */
  lemma CooldownStepLocal(m: map<string, int>, c: Command, userId: string, now: int, other: string)
    requires other != CooldownKey(c.name, userId)
    requires CooldownStep(m, c, userId, now).Proceed?
    ensures var next := CooldownStep(m, c, userId, now).next;
      (other in next <==> other in m) && (other in m ==> next[other] == m[other])
  {
  }

  /**
   * A run that passes the cooldown blocks the same user's next calls of the
   * command until `cooldown` milliseconds have gone by, reporting the time
   * left, and lets them through from then on.
   */
  lemma CooldownWindow(m: map<string, int>, c: Command, userId: string, t1: int, t2: int)
    requires HasCooldown(c) && c.cooldown.value > 0 && t1 >= 0 && t1 <= t2
    requires CooldownStep(m, c, userId, t1).Proceed?
    ensures var next := CooldownStep(m, c, userId, t1).next;
      (t2 < t1 + c.cooldown.value ==> CooldownStep(next, c, userId, t2) == Blocked(t1 + c.cooldown.value - t2)) &&
      (t2 >= t1 + c.cooldown.value ==> CooldownStep(next, c, userId, t2).Proceed?)
  {
    var key := CooldownKey(c.name, userId);
    assert CooldownStep(m, c, userId, t1).next[key] == t1 + c.cooldown.value;
  }

  /**
   * Keys are per command and per user: with user ids free of `-` (Discord
   * ids are decimal digits), different (command, user) pairs never share a
   * cooldown entry, even though command names such as `block-ip-mode` hold
   * dashes.
   */
  lemma CooldownKeyInjective(n1: string, u1: string, n2: string, u2: string)
    requires '-' !in u1 && '-' !in u2
    requires CooldownKey(n1, u1) == CooldownKey(n2, u2)
    ensures n1 == n2 && u1 == u2
  {
    var s := CooldownKey(n1, u1);
    assert s == ("slash-" + n1 + "-") + u1;
    assert s == ("slash-" + n2 + "-") + u2;
    if |u1| < |u2| {
      DashBeforeSuffix(n1, u1);
    } else if |u2| < |u1| {
      DashBeforeSuffix(n2, u2);
    }
    assert u1 == s[|s| - |u1|..] == u2;
    assert "slash-" + n1 == s[..|s| - |u1| - 1] == "slash-" + n2;
    assert n1 == ("slash-" + n1)[6..];
  }

  lemma DashBeforeSuffix(n: string, u: string)
    ensures var s := CooldownKey(n, u);
      |s| == 7 + |n| + |u| && s[|s| - |u| - 1] == '-' && s[|s| - |u|..] == u
  {
  }

  /** Without the restriction on user ids, two pairs can share an entry. */
  lemma CooldownKeyCollision()
    ensures CooldownKey("block-ip-mode", "1") == CooldownKey("block", "ip-mode-1")
  {
  }

  /**
   * `PermissionsBitField.has`: every named permission is in the set, or the
   * set holds `Administrator`, which passes every check.
   */
  predicate Has(perms: set<string>, needed: seq<string>): (r: bool)
    ensures "Administrator" in perms ==> r
    ensures needed == [] ==> r
    ensures !r <==> "Administrator" !in perms && exists p :: p in needed && p !in perms
  {
    "Administrator" in perms || forall p :: p in needed ==> p in perms
  }

  datatype PermCheck = PermsOk | UserMissing | BotMissing | PermsThrew

  /**
   * Both `missingUserPerms` and `missingBotPerms` are computed first (either
   * throws when the command asks for permissions and the interaction carries
   * no permission set); then the user's permissions are checked before the
   * bot's.
   */
  function CheckPerms(c: Command, it: Interaction): (r: PermCheck)
    ensures r == PermsThrew <==>
      (c.userPerms.Some? && it.memberPermissions.None?) || (c.botPerms.Some? && it.botPermissions.None?)
    ensures r == UserMissing <==> (r != PermsThrew &&
      c.userPerms.Some? && !Has(it.memberPermissions.value, c.userPerms.value))
    ensures r == BotMissing <==> (r != PermsThrew && r != UserMissing &&
      c.botPerms.Some? && !Has(it.botPermissions.value, c.botPerms.value))
    ensures r == PermsOk ==>
      (c.userPerms.None? || Has(it.memberPermissions.value, c.userPerms.value)) &&
      (c.botPerms.None? || Has(it.botPermissions.value, c.botPerms.value))
  {
    if (c.userPerms.Some? && it.memberPermissions.None?) || (c.botPerms.Some? && it.botPermissions.None?) then
      PermsThrew
    else if c.userPerms.Some? && !Has(it.memberPermissions.value, c.userPerms.value) then
      UserMissing
    else if c.botPerms.Some? && !Has(it.botPermissions.value, c.botPerms.value) then
      BotMissing
    else PermsOk
  }

  /**
   * What follows a passed cooldown: a refusal for missing user permissions
   * (checked first) or missing bot permissions, the error reply when the
   * checks themselves throw, or the command's run followed, if it throws, by
   * the error reply chosen from the flags the command left behind.
   */
  function AfterCooldown(c: Command, it: Interaction, outcome: RunOutcome): (r: seq<Effect>)
    ensures RanCommand(c.name) in r <==> CheckPerms(c, it) == PermsOk
    ensures CheckPerms(c, it) == UserMissing ==> r == [SafeReply(it.replied, it.deferred, MissingUserPerms)]
    ensures CheckPerms(c, it) == BotMissing ==> r == [SafeReply(it.replied, it.deferred, MissingBotPerms)]
    ensures CheckPerms(c, it) == PermsThrew ==> r == [SafeReply(it.replied, it.deferred, UnexpectedError)]
    ensures CheckPerms(c, it) == PermsOk && outcome.Completed? ==> r == [RanCommand(c.name)]
    ensures CheckPerms(c, it) == PermsOk && outcome.Threw? ==>
      r == [RanCommand(c.name), SafeReply(outcome.replied, outcome.deferred, UnexpectedError)]
  {
    match CheckPerms(c, it)
    case PermsThrew => [SafeReply(it.replied, it.deferred, UnexpectedError)]
    case UserMissing => [SafeReply(it.replied, it.deferred, MissingUserPerms)]
    case BotMissing => [SafeReply(it.replied, it.deferred, MissingBotPerms)]
    case PermsOk =>
      if outcome.Threw? then [RanCommand(c.name), SafeReply(outcome.replied, outcome.deferred, UnexpectedError)]
      else [RanCommand(c.name)]
  }

  /** The handler, with the module-level `cooldown` collection as its state. */
  class Dispatcher {
    var cooldown: map<string, int>

    constructor ()
      ensures cooldown == map[]
    {
      cooldown := map[];
    }

    /**
     * One interaction at time `now`. Autocomplete never runs the command and
     * never touches the cooldowns; other non-command interactions and unknown
     * command names do nothing; a command goes through `CooldownStep` and,
     * once past it, through `AfterCooldown`.
     */
    method Handle(commands: map<string, Command>, it: Interaction, now: int, outcome: RunOutcome)
      returns (effects: seq<Effect>)
      modifies this
      ensures it.kind == Autocomplete ==> (cooldown == old(cooldown) &&
        effects == (if it.commandName in commands && commands[it.commandName].hasAutocomplete
                    then [RanAutocomplete(commands[it.commandName].name)] else []))
      ensures it.kind == OtherKind || (it.kind == ApplicationCommand && it.commandName !in commands) ==>
        (cooldown == old(cooldown) && effects == [])
      ensures it.kind == ApplicationCommand && it.commandName in commands ==>
        var c := commands[it.commandName];
        match CooldownStep(old(cooldown), c, it.userId, now)
        case Blocked(left) =>
          cooldown == old(cooldown) && effects == [SafeReply(it.replied, it.deferred, CooldownNotice(left))]
        case Proceed(next) =>
          cooldown == next && effects == AfterCooldown(c, it, outcome)
    {
      var found := if it.commandName in commands then Some(commands[it.commandName]) else None;
      if it.kind == Autocomplete {
        if found.Some? && found.value.hasAutocomplete {
          effects := [RanAutocomplete(found.value.name)];
        } else {
          effects := [];
        }
        return;
      }
      if it.kind != ApplicationCommand || found.None? {
        return [];
      }
      // The deletion of an unregistered command (lines 24-27) cannot be reached:
      // the guard above has already returned for it.
      if found.None? {
        assert false;
      }
      var c := found.value;
      var key := CooldownKey(c.name, it.userId);
      if HasCooldown(c) {
        if key in cooldown && cooldown[key] != 0 && now < cooldown[key] {
          return [SafeReply(it.replied, it.deferred, CooldownNotice(cooldown[key] - now))];
        }
        cooldown := cooldown[key := now + c.cooldown.value];
      }
      effects := AfterCooldown(c, it, outcome);
    }
  }
}
