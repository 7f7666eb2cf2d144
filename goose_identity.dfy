/**
 * Roles of the goose-duck game: the fixed role catalogue and the per-player
 * identity that tracks life, protection and the remaining kill uses.
 */
module GooseIdentity {
  import opened Common

  datatype Team = Good | Neutral | Evil

  datatype RoleType = Goose | Sheriff | Vigilante | Canadian | Dodo | Assassin

  datatype Role = Role(
    roleType: RoleType,
    team: Team,
    name: string,
    description: string,
    abilities: seq<string>,
    canKill: bool,
    killUses: Option<int>,
    winCondition: Option<string>)

  /**
   * `Role.from_type`: the catalogue entry for a role type. Only the sheriff,
   * the vigilante and the assassin can kill; only the vigilante has a
   * bounded number of kills (one); the assassin is the only evil role and
   * the dodo the only neutral one, winning by being voted out.
   */
  function FromType(t: RoleType): (r: Role)
    ensures r.roleType == t
    ensures r.canKill <==> t in {Sheriff, Vigilante, Assassin}
    ensures r.killUses == (if t == Vigilante then Some(1) else None)
    ensures r.team == Evil <==> t == Assassin
    ensures r.team == Neutral <==> t == Dodo
    ensures r.winCondition.Some? <==> t == Dodo
    ensures t == Dodo ==> r.winCondition == Some("voted_out")
  {
    match t
    case Goose => Role(Goose, Good, "Goose", GOOSE_TEXT, [], false, None, None)
    case Sheriff => Role(Sheriff, Good, "Sheriff [Goose]", SHERIFF_TEXT, ["sheriff_kill"], true, None, None)
    case Vigilante => Role(Vigilante, Good, "Vigilante [Goose]", VIGILANTE_TEXT, ["single_kill"], true, Some(1), None)
    case Canadian => Role(Canadian, Good, "Canadian Goose", CANADIAN_TEXT, ["death_report"], false, None, None)
    case Dodo => Role(Dodo, Neutral, "Dodo", DODO_TEXT, [], false, None, Some("voted_out"))
    case Assassin => Role(Assassin, Evil, "Assassin [Duck]", ASSASSIN_TEXT, ["kill", "snipe"], true, None, None)
  }

  /** The role descriptions. */
  const GOOSE_TEXT := "Regular good player, wins by completing tasks or finding evil players"
  const SHERIFF_TEXT := "Can kill any role, but killing a goose will cause mutual destruction."
  const VIGILANTE_TEXT := "Only one kill opportunity, can hunt any target."
  const CANADIAN_TEXT := "Forces the killer to immediately report when killed."
  const DODO_TEXT := "Wins directly by being voted out in the voting phase."
  const ASSASSIN_TEXT := "Disguised as a goose, kills secretly; can snipe twice during meetings (once per meeting)."

  /** The mutable per-player identity. */
  datatype PlayerIdentity = PlayerIdentity(
    playerId: string,
    playerName: string,
    role: Role,
    isAlive: bool,
    killUsesRemaining: Option<int>,
    isProtected: bool,
    morphedAs: Option<string>)
  {
    /** `can_use_kill`. */
    predicate CanUseKill()
    {
      isAlive && role.canKill && (killUsesRemaining.None? || killUsesRemaining.value > 0)
    }

    /**
     * `use_kill`: spends one use when a positive count is left; an
     * unlimited (`None`) or exhausted count is left alone, so a count never
     * drops below zero through this call. Nothing else changes.
     */
    function UseKill(): (r: PlayerIdentity)
      ensures r == this.(killUsesRemaining := r.killUsesRemaining)
      ensures killUsesRemaining.None? ==> r.killUsesRemaining.None?
      ensures killUsesRemaining.Some? ==> r.killUsesRemaining.Some?
      ensures killUsesRemaining.Some? && killUsesRemaining.value > 0 ==>
                r.killUsesRemaining.value == killUsesRemaining.value - 1
      ensures killUsesRemaining.Some? && killUsesRemaining.value <= 0 ==>
                r.killUsesRemaining == killUsesRemaining
      ensures killUsesRemaining.Some? && killUsesRemaining.value >= 0 ==> r.killUsesRemaining.value >= 0
    {
      if killUsesRemaining.Some? && killUsesRemaining.value > 0 then
        this.(killUsesRemaining := Some(killUsesRemaining.value - 1))
      else this
    }

    /** `to_dict`: the role is exposed only when asked for. */
    function ToView(revealRole: bool): (v: IdentityView)
      ensures v.playerId == playerId && v.playerName == playerName && v.isAlive == isAlive
      ensures v.role.Some? <==> revealRole
      ensures revealRole ==> v.role == Some(role)
    {
      IdentityView(playerId, playerName, isAlive, if revealRole then Some(role) else None)
    }
  }

  datatype IdentityView = IdentityView(playerId: string, playerName: string, isAlive: bool, role: Option<Role>)

  /**
   * The dataclass constructor with `__post_init__`: an identity starts
   * alive and unprotected; when no remaining count is given it takes the
   * role's `kill_uses`.
   */
  function NewIdentity(playerId: string, playerName: string, role: Role,
                       killUsesRemaining: Option<int> := None): (r: PlayerIdentity)
    ensures r.playerId == playerId && r.playerName == playerName && r.role == role
    ensures r.isAlive && !r.isProtected && r.morphedAs.None?
    ensures killUsesRemaining.None? ==> r.killUsesRemaining == role.killUses
    ensures killUsesRemaining.Some? ==> r.killUsesRemaining == killUsesRemaining
  {
    PlayerIdentity(playerId, playerName, role, true,
      if killUsesRemaining.None? then role.killUses else killUsesRemaining, false, None)
  }

  /**
   * A fresh identity can kill exactly when its role can; the vigilante
   * loses the ability after one kill while sheriff and assassin keep it.
   */
  lemma KillUsesByRole(t: RoleType, id: string, name: string)
    ensures NewIdentity(id, name, FromType(t)).CanUseKill() <==> t in {Sheriff, Vigilante, Assassin}
    ensures t == Vigilante ==> !NewIdentity(id, name, FromType(t)).UseKill().CanUseKill()
    ensures t in {Sheriff, Assassin} ==> NewIdentity(id, name, FromType(t)).UseKill().CanUseKill()
  {
  }

  /**
   * Spending kills never revives the ability: once an identity cannot
   * kill, `UseKill` keeps it unable, and any number of kills leave an
   * unlimited role able to kill while alive.
   */
  lemma UseKillMonotone(p: PlayerIdentity)
    ensures !p.CanUseKill() ==> !p.UseKill().CanUseKill()
    ensures p.killUsesRemaining.None? ==> (p.UseKill().CanUseKill() <==> p.CanUseKill())
  {
  }
}
