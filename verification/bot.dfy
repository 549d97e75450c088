/**
 * The bot process's own state: the `seen_users` set behind the first-contact
 * welcome message, and the `_synced_once` flag that limits command syncing
 * to the first `on_ready`.
 */
module Bot {
  import opened Wrappers
  import Text

  /** The author of an interaction: its id (already rendered as text) and whether it is a bot account. */
  datatype User = User(id: string, isBot: bool)

  /** How `interaction.user.send(welcome)` fared: returned, raised `Forbidden`, or raised anything else. */
  datatype DmOutcome = Sent | Forbidden | OtherError

  /** One interaction as the gate sees it: its (possibly missing) user and how a welcome DM would fare. */
  datatype Interaction = Interaction(user: Option<User>, dm: DmOutcome)

  /** The interaction comes from a human user: `interaction.user and not interaction.user.bot`. */
  predicate FromHuman(user: Option<User>)
  {
    user.Some? && !user.value.isBot
  }

  /** A welcome DM is attempted for a human user not yet seen. */
  predicate WelcomeAttempted(seen: set<string>, user: Option<User>)
  {
    FromHuman(user) && user.value.id !in seen
  }

  /**
   * `seen_users` after one interaction: an unseen human is recorded unless
   * the DM raised something other than `Forbidden`, which aborts the handler
   * before the insert.
   */
  function SeenAfter(seen: set<string>, ev: Interaction): (r: set<string>)
    ensures seen <= r
    ensures !FromHuman(ev.user) ==> r == seen
    ensures FromHuman(ev.user) && ev.dm != OtherError ==> ev.user.value.id in r
    ensures r - seen <= (if FromHuman(ev.user) then {ev.user.value.id} else {})
    ensures WelcomeAttempted(seen, ev.user) && ev.dm == OtherError ==> r == seen
  {
    if WelcomeAttempted(seen, ev.user) && ev.dm != OtherError then seen + {ev.user.value.id}
    else seen
  }

  /** `super().on_interaction` runs unless the welcome DM raised something other than `Forbidden`. */
  predicate CommandsProcessed(seen: set<string>, ev: Interaction)
  {
    !(WelcomeAttempted(seen, ev.user) && ev.dm == OtherError)
  }

  /** The welcome was actually delivered to `id` by this interaction. */
  predicate WelcomedNow(seen: set<string>, ev: Interaction, id: string)
  {
    WelcomeAttempted(seen, ev.user) && ev.user.value.id == id && ev.dm == Sent
  }

  /** How many welcome messages `id` receives over a run of interactions. */
  function WelcomesTo(seen: set<string>, evs: seq<Interaction>, id: string): nat
    decreases |evs|
  {
    if evs == [] then 0
    else (if WelcomedNow(seen, evs[0], id) then 1 else 0) + WelcomesTo(SeenAfter(seen, evs[0]), evs[1..], id)
  }

  /** A user already seen is never welcomed again. */
  lemma {:induction false} NoWelcomeOnceSeen(seen: set<string>, evs: seq<Interaction>, id: string)
    requires id in seen
    ensures WelcomesTo(seen, evs, id) == 0
    decreases |evs|
  {
    if evs != [] {
      NoWelcomeOnceSeen(SeenAfter(seen, evs[0]), evs[1..], id);
    }
  }

  /** Over any sequence of interactions, each user receives the welcome at most once, and never if already seen. */
  lemma {:induction false} WelcomedAtMostOnce(seen: set<string>, evs: seq<Interaction>, id: string)
    ensures WelcomesTo(seen, evs, id) <= if id in seen then 0 else 1
    decreases |evs|
  {
    if id in seen {
      NoWelcomeOnceSeen(seen, evs, id);
    } else if evs != [] {
      var next := SeenAfter(seen, evs[0]);
      if WelcomedNow(seen, evs[0], id) {
        NoWelcomeOnceSeen(next, evs[1..], id);
      } else {
        WelcomedAtMostOnce(next, evs[1..], id);
      }
    }
  }

  /** What the first `on_ready` does about slash commands. */
  datatype SyncAction = NoSync | SyncGuild(guildId: int) | SyncGlobal | Crashed

  /**
   * `on_ready`'s sync decision: nothing once synced; otherwise the dev guild
   * when `DEV_GUILD_ID` is set and non-empty, global sync when it is not;
   * a `DEV_GUILD_ID` that `int` rejects raises before anything happens.
   */
  function ReadyAction(synced: bool, devGuildId: Option<string>): (a: SyncAction)
    ensures synced ==> a == NoSync
    ensures !synced ==> a != NoSync
    ensures a.SyncGuild? ==> devGuildId.Some? && Text.ParseInt(devGuildId.value) == Some(a.guildId)
    ensures a == SyncGlobal <==> !synced && (devGuildId.None? || devGuildId.value == "")
    ensures !synced && devGuildId.Some? && Text.ParseInt(devGuildId.value).Some? ==>
              a == SyncGuild(Text.ParseInt(devGuildId.value).value)
    ensures a == Crashed <==> !synced && devGuildId.Some? && devGuildId.value != "" && Text.ParseInt(devGuildId.value).None?
  {
    if synced then NoSync
    else if devGuildId.Some? && devGuildId.value != "" then
      match Text.ParseInt(devGuildId.value)
      case Some(g) => SyncGuild(g)
      case None => Crashed
    else SyncGlobal
  }

  /** A sync that completed sets the flag. */
  function SyncedAfter(synced: bool, devGuildId: Option<string>): bool
  {
    synced || ReadyAction(synced, devGuildId) != Crashed
  }

  /** How many syncs `n` successive `on_ready` events perform. */
  function SyncCount(synced: bool, devGuildId: Option<string>, n: nat): nat
    decreases n
  {
    if n == 0 then 0
    else
      var a := ReadyAction(synced, devGuildId);
      (if a.SyncGuild? || a == SyncGlobal then 1 else 0) + SyncCount(SyncedAfter(synced, devGuildId), devGuildId, n - 1)
  }

  /** However many times the bot reconnects, commands are synced at most once, and never after the flag is set. */
  lemma {:induction false} SyncAtMostOnce(synced: bool, devGuildId: Option<string>, n: nat)
    ensures SyncCount(synced, devGuildId, n) <= if synced then 0 else 1
    decreases n
  {
    if n > 0 {
      var a := ReadyAction(synced, devGuildId);
      SyncAtMostOnce(SyncedAfter(synced, devGuildId), devGuildId, n - 1);
      if a == Crashed {
        CrashedForever(devGuildId, n - 1);
      }
    }
  }

  /** An unparsable guild id makes every `on_ready` raise, so nothing is ever synced. */
  lemma {:induction false} CrashedForever(devGuildId: Option<string>, n: nat)
    requires ReadyAction(false, devGuildId) == Crashed
    ensures SyncCount(false, devGuildId, n) == 0
    decreases n
  {
    if n > 0 {
      CrashedForever(devGuildId, n - 1);
    }
  }

  /** The bot object: the `seen_users` table and the `_synced_once` flag. */
  class FinancePal {
    var seenUsers: set<string>
    var syncedOnce: bool

    constructor (seen: set<string>)
      ensures seenUsers == seen && !syncedOnce
    {
      seenUsers := seen;
      syncedOnce := false;
    }

    /**
     * `on_interaction`: bots and user-less interactions skip the gate; an
     * unseen human gets a welcome attempt and is recorded whether or not the
     * DM was forbidden; command processing follows unless the DM raised
     * anything else.
     */
    method OnInteraction(ev: Interaction) returns (attempted: bool, processed: bool)
      modifies this
      ensures attempted == WelcomeAttempted(old(seenUsers), ev.user)
      ensures processed == CommandsProcessed(old(seenUsers), ev)
      ensures seenUsers == SeenAfter(old(seenUsers), ev)
      ensures syncedOnce == old(syncedOnce)
    {
      attempted, processed := false, true;
      if FromHuman(ev.user) {
        var id := ev.user.value.id;
        var seen := id in seenUsers;
        if !seen {
          attempted := true;
          if ev.dm == OtherError {
            processed := false;
            return;
          }
          seenUsers := seenUsers + {id};
        }
      }
    }

    /** `on_ready`: sync only while the flag is clear, and set it once a sync went through. */
    method OnReady(devGuildId: Option<string>) returns (action: SyncAction)
      modifies this
      ensures action == ReadyAction(old(syncedOnce), devGuildId)
      ensures syncedOnce == SyncedAfter(old(syncedOnce), devGuildId)
      ensures seenUsers == old(seenUsers)
    {
      if syncedOnce {
        return NoSync;
      }
      if devGuildId.Some? && devGuildId.value != "" {
        var guild := Text.ParseInt(devGuildId.value);
        if guild.None? {
          return Crashed;
        }
        action := SyncGuild(guild.value);
      } else {
        action := SyncGlobal;
      }
      syncedOnce := true;
    }
  }
}
