// The blacklist gate in front of every application command.

module CommandTree {
  import opened Wrappers

  type UserId = nat
  type GuildId = nat

  /** The bot owners and the configured guild and user blacklists. */
  datatype Blacklist = Blacklist(owners: set<UserId>, guilds: seq<GuildId>, users: seq<UserId>)

  /**
   * `_is_blacklisted`: an owner is never blacklisted; otherwise a given guild
   * decides by the guild list alone, and without a guild a given user decides
   * by the user list; with neither, nothing is blacklisted.
   */
  function IsBlacklisted(user: Option<UserId>, guild: Option<GuildId>, bl: Blacklist): (r: bool)
    ensures user.Some? && user.value in bl.owners ==> !r
    ensures r ==> (guild.Some? && guild.value in bl.guilds) || (guild.None? && user.Some? && user.value in bl.users)
  {
    if user.Some? && user.value in bl.owners then false
    else if guild.Some? then guild.value in bl.guilds
    else if user.Some? then user.value in bl.users
    else false
  }

  /** An owner passes whatever the lists contain. */
  lemma OwnerNeverBlacklisted(owner: UserId, guild: Option<GuildId>, bl: Blacklist)
    requires owner in bl.owners
    ensures !IsBlacklisted(Some(owner), guild, bl)
  {
  }

  /** With a guild given, the answer is guild membership in the guild list, and the user list is not consulted. */
  lemma GuildDecidesAlone(user: Option<UserId>, guild: GuildId, bl: Blacklist, otherUsers: seq<UserId>)
    requires user.None? || user.value !in bl.owners
    ensures IsBlacklisted(user, Some(guild), bl) == (guild in bl.guilds)
    ensures IsBlacklisted(user, Some(guild), bl) == IsBlacklisted(user, Some(guild), bl.(users := otherUsers))
  {
  }

  /** With only a user given, the answer is membership in the user list. */
  lemma UserDecidesWithoutGuild(user: UserId, bl: Blacklist)
    requires user !in bl.owners
    ensures IsBlacklisted(Some(user), None, bl) == (user in bl.users)
  {
  }

  /** With neither a user nor a guild, nothing is blacklisted. */
  lemma NobodyIsNotBlacklisted(bl: Blacklist)
    ensures !IsBlacklisted(None, None, bl)
  {
  }

  /** What `interaction_check` answers. */
  datatype Verdict = Allowed | UserRejected | GuildRejected

  /**
   * `interaction_check`: the user is checked on its own and the guild on its
   * own (the guild check is given no user); a blacklisted user is reported
   * before a blacklisted guild.
   */
  function InteractionCheck(user: UserId, guild: Option<GuildId>, bl: Blacklist): (r: Verdict)
    ensures r == Allowed <==> (user in bl.owners || user !in bl.users) && !(guild.Some? && guild.value in bl.guilds)
    ensures r == UserRejected <==> user !in bl.owners && user in bl.users
    ensures r == GuildRejected <==> (user in bl.owners || user !in bl.users) && guild.Some? && guild.value in bl.guilds
  {
    var userBlacklisted := IsBlacklisted(Some(user), None, bl);
    var guildBlacklisted := IsBlacklisted(None, guild, bl);
    if userBlacklisted then UserRejected
    else if guildBlacklisted then GuildRejected
    else Allowed
  }

  /** The owner exemption does not reach the guild check: an owner inside a blacklisted guild is turned away. */
  lemma OwnerInBlacklistedGuildRejected(owner: UserId, guild: GuildId, bl: Blacklist)
    requires owner in bl.owners && guild in bl.guilds
    ensures InteractionCheck(owner, Some(guild), bl) == GuildRejected
  {
  }
}
