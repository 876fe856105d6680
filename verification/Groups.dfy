/** Closures and validators of internal/panel/outbound_groups.go. */
module Groups {
  import opened Wrappers
  import opened Lists
  import opened Sorting
  import opened Text
  import opened Entities

  predicate ValidStrategy(s: string) {
    s == "random" || s == "round_robin" || s == "least_ping" || s == "least_load"
  }

  predicate MemberLe(a: Member, b: Member) {
    if a.priority == b.priority then LexLe(a.outboundId, b.outboundId) else a.priority < b.priority
  }

  /** The member loop of normalizeOutboundGroupInput; `seen` is the map of identifiers met so far. */
  function NormalizeMembers(ms: seq<Member>, seen: set<string>): (r: Outcome<seq<Member>>)
    ensures r.Ok? ==> |r.value| == |ms|
    ensures r.Ok? ==> forall i | 0 <= i < |ms| ::
                        && r.value[i].outboundId == Trim(ms[i].outboundId) != ""
                        && r.value[i].outboundId !in seen
                        && 0 <= r.value[i].priority <= 1000 && 1 <= r.value[i].weight <= 100
    ensures r.Ok? ==> forall i, j | 0 <= i < j < |ms| :: r.value[i].outboundId != r.value[j].outboundId
  {
    if ms == [] then Ok([])
    else
      var id := Trim(ms[0].outboundId);
      var weight := if ms[0].weight == 0 then 1 else ms[0].weight;
      if id == "" || id in seen || ms[0].priority < 0 || ms[0].priority > 1000 || weight < 1 || weight > 100 then
        Err(InvalidInput)
      else
        var rest := NormalizeMembers(ms[1..], seen + {id});
        if rest.Err? then rest else Ok([Member(id, ms[0].priority, weight)] + rest.value)
  }

  /** normalizeOutboundGroupInput */
  function Normalize(raw: Group): Outcome<Group> {
    var strategy := Lower(Trim(raw.strategy));
    var g := raw.(name := Trim(raw.name), nodeId := Trim(raw.nodeId),
                  strategy := if strategy == "" then "least_ping" else strategy,
                  fallback := if Trim(raw.fallback) == "" then "blocked" else Trim(raw.fallback),
                  expected := if raw.expected == 0 then 1 else raw.expected);
    if g.name == "" || g.nodeId == "" || !ValidStrategy(g.strategy) || |g.members| == 0 || |g.members| > 32 then
      Err(InvalidInput)
    else if g.expected < 1 || g.expected > |g.members| then Err(InvalidInput)
    else
      var ms := NormalizeMembers(g.members, {});
      if ms.Err? then Err(ms.error) else Ok(g.(members := StableSort(ms.value, MemberLe)))
  }

  predicate NameClash(xs: seq<Group>, g: Group) {
    exists x :: x in xs && x.id != g.id && x.nodeId == g.nodeId && Fold(x.name) == Fold(g.name)
  }

  function MemberError(st: State, g: Group, id: string): Option<Error> {
    match OutboundOf(st, id)
    case None => Some(MemberMissing)
    case Some(o) =>
      if o.nodeId != g.nodeId then Some(MemberElsewhere)
      else if !o.enabled then Some(MemberDisabled)
      else if o.protocol == "blackhole" then Some(MemberBlackhole)
      else None
  }

  /** The member scan of validateOutboundGroupSpec. */
  function MembersError(st: State, g: Group, ms: seq<Member>): (e: Option<Error>)
    ensures e.None? <==> forall m | m in ms :: MemberError(st, g, m.outboundId).None?
  {
    if ms == [] then None
    else
      assert ms == [ms[0]] + ms[1..];
      var e := MemberError(st, g, ms[0].outboundId);
      if e.Some? then e else MembersError(st, g, ms[1..])
  }

  predicate HasMember(g: Group, id: string) {
    exists m :: m in g.members && m.outboundId == id
  }

  predicate BuiltIn(target: string) {
    target == "blocked" || target == "direct"
  }

  function FallbackError(st: State, g: Group): Option<Error> {
    if BuiltIn(g.fallback) then None
    else if HasMember(g, g.fallback) then Some(FallbackIsMember)
    else
      match OutboundOf(st, g.fallback)
      case None => Some(FallbackMissing)
      case Some(o) =>
        if o.nodeId != g.nodeId then Some(FallbackElsewhere)
        else if !o.enabled then Some(FallbackDisabled)
        else None
  }

  /** validateOutboundGroupSpec */
  function Validate(st: State, g: Group): Option<Error> {
    match NodeForWork(st, g.nodeId)
    case Some(e) => Some(e)
    case None =>
      if NameClash(st.groups, g) then Some(NameTaken)
      else if MembersError(st, g, g.members).Some? then MembersError(st, g, g.members)
      else FallbackError(st, g)
  }

  predicate References(g: Group, outboundId: string) {
    g.fallback == outboundId || HasMember(g, outboundId)
  }

  /** validateOutboundGroupReferencesForChange */
  function ReferenceChange(gs: seq<Group>, outboundId: string, nodeId: string, enabled: bool): (e: Option<Error>)
    ensures e.None? <==> forall g | g in gs && References(g, outboundId) :: enabled && g.nodeId == nodeId
  {
    if gs == [] then None
    else
      assert gs == [gs[0]] + gs[1..];
      if !References(gs[0], outboundId) then ReferenceChange(gs[1..], outboundId, nodeId, enabled)
      else if !enabled then Some(InUseByGroup)
      else if gs[0].nodeId != nodeId then Some(MoveBlocked)
      else ReferenceChange(gs[1..], outboundId, nodeId, enabled)
  }

  /** outboundGroupReferencedByRouting */
  predicate UsedByRule(st: State, groupId: string, enabledOnly: bool) {
    exists r :: r in st.rules && r.groupId == groupId && (enabledOnly ==> r.enabled)
  }

  function Create(st: State, g: Group): Outcome<State> {
    match Validate(st, g)
    case Some(e) => Err(e)
    case None => Ok(st.(groups := st.groups + [g]))
  }

  function UndoCreate(st: State, id: string): Outcome<State> {
    Ok(st.(groups := Without(st.groups, GroupKey, id)))
  }

  function Put(st: State, id: string, g: Group): State {
    st.(groups := Replace(st.groups, GroupKey, id, g))
  }

  function Update(st: State, id: string, y: Group, now: Time): Outcome<State> {
    match GroupOf(st, id)
    case None => Err(NotFound)
    case Some(x) =>
      if x.nodeId != y.nodeId && UsedByRule(st, id, false) then Err(MoveBlocked)
      else if !y.enabled && UsedByRule(st, id, true) then Err(DisableBlocked)
      else
        var g := y.(id := x.id, createdAt := x.createdAt, updatedAt := now);
        match Validate(st, g)
        case Some(e) => Err(e)
        case None => Ok(Put(st, id, g))
  }

  function Restore(st: State, id: string, before: Group): Outcome<State> {
    if GroupOf(st, id).None? then Err(Vanished) else Ok(Put(st, id, before))
  }

  function Delete(st: State, id: string): Outcome<State> {
    if GroupOf(st, id).None? then Err(NotFound)
    else if UsedByRule(st, id, false) then Err(InUseByRule)
    else Ok(st.(groups := Without(st.groups, GroupKey, id)))
  }

  function UndoDelete(st: State, id: string, before: Group, index: nat): Outcome<State> {
    if GroupOf(st, id).Some? then Ok(st)
    else if index > |st.groups| then Ok(st.(groups := st.groups + [before]))
    else Ok(st.(groups := InsertAt(st.groups, index, before)))
  }
}
