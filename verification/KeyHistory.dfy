/**
 What the projection's lists mean. Each table is a map from keys to entities, and
 the entry under one key is decided by that key's own history, whatever else the
 run of events does. The `…After` functions are that meaning; they know nothing of
 lists, positions or searches.
 */
module KeyHistory {
  import opened Common
  import opened ClientModel
  import opened KeyedList
  import opened Projection

  ghost predicate UniqueKeys(state: ClientState) {
    && Unique(state.groups, GroupKey)
    && Unique(state.channels, ChannelKey)
    && Unique(state.users, UserKey)
    && Unique(state.roles, RoleKey)
    && Unique(state.voiceMemberships, MemberKey)
  }

  // ----- one key, one event ----------------------------------------------------------------

  function GroupAfter(prior: Option<Group>, event: StateEvent, id: Snowflake): Option<Group> {
    var data := event.data;
    match event.eventType
    case GroupCreated | GroupUpdated =>
      if data.group.Some? && data.group.value.id == id then data.group else prior
    case GroupDeleted => if data.entityId == Some(id) then None else prior
    case _ => prior
  }

  /** A channel also goes when the group it currently belongs to is deleted. */
  function ChannelAfter(prior: Option<Channel>, event: StateEvent, id: Snowflake): Option<Channel> {
    var data := event.data;
    match event.eventType
    case ChannelCreated | ChannelUpdated =>
      if data.channel.Some? && data.channel.value.id == id then data.channel else prior
    case ChannelDeleted => if data.entityId == Some(id) then None else prior
    case GroupDeleted =>
      if prior.Some? && data.entityId.Some? && prior.value.groupId == data.entityId then None
      else prior
    case _ => prior
  }

  function UserAfter(prior: Option<UserPresence>, event: StateEvent, id: Snowflake)
    : Option<UserPresence>
  {
    var data := event.data;
    match event.eventType
    case UserCreated | UserUpdated | PresenceUpdated =>
      if data.user.Some? && data.user.value.userId == id then data.user else prior
    case UserDeleted => if data.userId == Some(id) then None else prior
    case _ => prior
  }

  function RoleAfter(prior: Option<Role>, event: StateEvent, key: string): Option<Role> {
    var data := event.data;
    match event.eventType
    case RbacRoleCreated | RbacRoleUpdated =>
      if data.role.Some? && data.role.value.key == key then data.role else prior
    case RbacRoleDeleted => if data.roleKey == Some(key) then None else prior
    case _ => prior
  }

  /** A stale departure, naming a channel the user has already left, removes nothing. */
  function MemberAfter(prior: Option<VoiceMembership>, event: StateEvent, user: Snowflake)
    : Option<VoiceMembership>
  {
    var data := event.data;
    match event.eventType
    case ChannelMemberJoined =>
      if data.membership.Some? && data.membership.value.userId == user then data.membership
      else prior
    case ChannelMemberLeft =>
      if prior.Some? && data.departure == Some(Departure(user, prior.value.channelId)) then None
      else prior
    case ChannelDeleted =>
      if prior.Some? && data.entityId == Some(prior.value.channelId) then None else prior
    case _ => prior
  }

  function AuthorityAfter(prior: Option<VoiceAuthority>, event: StateEvent): Option<VoiceAuthority> {
    var data := event.data;
    match event.eventType
    case SelfUpdated => if data.selfState.Some? then data.selfState.value.voiceAuthority else prior
    case VoiceAuthorityUpdated => if data.authority.Some? then data.authority.value else prior
    case ChannelDeleted =>
      if prior.Some? && data.entityId == Some(prior.value.channelId) then None else prior
    case _ => prior
  }

  /** Everything a reader can look up, gathered so that two projections can be compared. */
  ghost predicate Follows(state: ClientState, event: StateEvent, next: ClientState) {
    && (forall id: Snowflake :: Find(next.groups, GroupKey, id)
          == GroupAfter(Find(state.groups, GroupKey, id), event, id))
    && (forall id: Snowflake :: Find(next.channels, ChannelKey, id)
          == ChannelAfter(Find(state.channels, ChannelKey, id), event, id))
    && (forall id: Snowflake :: Find(next.users, UserKey, id)
          == UserAfter(Find(state.users, UserKey, id), event, id))
    && (forall key: string :: Find(next.roles, RoleKey, key)
          == RoleAfter(Find(state.roles, RoleKey, key), event, key))
    && (forall id: Snowflake :: Find(next.voiceMemberships, MemberKey, id)
          == MemberAfter(Find(state.voiceMemberships, MemberKey, id), event, id))
    && next.selfUser.voiceAuthority == AuthorityAfter(state.selfUser.voiceAuthority, event)
  }

  lemma KeysStayUnique(state: ClientState, event: StateEvent)
    requires UniqueKeys(state) && Decodes(event)
    ensures UniqueKeys(Effect(state, event))
  {
    var data := event.data;
    match event.eventType {
      case GroupCreated | GroupUpdated =>
        UniqueUpsert(state.groups, data.group.value, GroupKey);
      case GroupDeleted =>
        UniqueRetain(state.groups, OtherGroup(data.entityId.value), GroupKey);
        UniqueRetain(state.channels, OutsideGroup(data.entityId.value), ChannelKey);
      case ChannelCreated | ChannelUpdated =>
        UniqueUpsert(state.channels, data.channel.value, ChannelKey);
      case ChannelDeleted =>
        UniqueRetain(state.channels, OtherChannel(data.entityId.value), ChannelKey);
        UniqueRetain(state.voiceMemberships, NotIn(data.entityId.value), MemberKey);
      case ChannelMemberJoined =>
        UniqueUpsert(state.voiceMemberships, data.membership.value, MemberKey);
      case ChannelMemberLeft =>
        UniqueRetain(state.voiceMemberships, NotLeaving(data.departure.value), MemberKey);
      case UserCreated | UserUpdated | PresenceUpdated =>
        UniqueUpsert(state.users, data.user.value, UserKey);
      case UserDeleted =>
        UniqueRetain(state.users, OtherUser(data.userId.value), UserKey);
      case RbacRoleCreated | RbacRoleUpdated =>
        UniqueUpsert(state.roles, data.role.value, RoleKey);
      case RbacRoleDeleted =>
        UniqueRetain(state.roles, OtherRole(data.roleKey.value), RoleKey);
      case _ =>
    }
  }

  lemma FindHasKey<T, K>(items: seq<T>, key: T -> K, k: K)
    ensures Find(items, key, k).Some? ==> key(Find(items, key, k).value) == k
  {
  }

  lemma GroupsFollow(state: ClientState, event: StateEvent, id: Snowflake)
    requires UniqueKeys(state) && Decodes(event)
    ensures Find(Effect(state, event).groups, GroupKey, id)
         == GroupAfter(Find(state.groups, GroupKey, id), event, id)
  {
    FindHasKey(state.groups, GroupKey, id);
    match event.eventType {
      case GroupCreated | GroupUpdated =>
        FindUpsert(state.groups, event.data.group.value, GroupKey, id);
      case GroupDeleted =>
        FindRetain(state.groups, OtherGroup(event.data.entityId.value), GroupKey, id);
      case _ =>
    }
  }

  lemma ChannelsFollow(state: ClientState, event: StateEvent, id: Snowflake)
    requires UniqueKeys(state) && Decodes(event)
    ensures Find(Effect(state, event).channels, ChannelKey, id)
         == ChannelAfter(Find(state.channels, ChannelKey, id), event, id)
  {
    FindHasKey(state.channels, ChannelKey, id);
    match event.eventType {
      case ChannelCreated | ChannelUpdated =>
        FindUpsert(state.channels, event.data.channel.value, ChannelKey, id);
      case ChannelDeleted =>
        FindRetain(state.channels, OtherChannel(event.data.entityId.value), ChannelKey, id);
      case GroupDeleted =>
        FindRetain(state.channels, OutsideGroup(event.data.entityId.value), ChannelKey, id);
      case _ =>
    }
  }

  lemma UsersFollow(state: ClientState, event: StateEvent, id: Snowflake)
    requires UniqueKeys(state) && Decodes(event)
    ensures Find(Effect(state, event).users, UserKey, id)
         == UserAfter(Find(state.users, UserKey, id), event, id)
  {
    FindHasKey(state.users, UserKey, id);
    match event.eventType {
      case UserCreated | UserUpdated | PresenceUpdated =>
        FindUpsert(state.users, event.data.user.value, UserKey, id);
      case UserDeleted =>
        FindRetain(state.users, OtherUser(event.data.userId.value), UserKey, id);
      case _ =>
    }
  }

  lemma RolesFollow(state: ClientState, event: StateEvent, key: string)
    requires UniqueKeys(state) && Decodes(event)
    ensures Find(Effect(state, event).roles, RoleKey, key)
         == RoleAfter(Find(state.roles, RoleKey, key), event, key)
  {
    FindHasKey(state.roles, RoleKey, key);
    match event.eventType {
      case RbacRoleCreated | RbacRoleUpdated =>
        FindUpsert(state.roles, event.data.role.value, RoleKey, key);
      case RbacRoleDeleted =>
        FindRetain(state.roles, OtherRole(event.data.roleKey.value), RoleKey, key);
      case _ =>
    }
  }

  lemma MembersFollow(state: ClientState, event: StateEvent, user: Snowflake)
    requires UniqueKeys(state) && Decodes(event)
    ensures Find(Effect(state, event).voiceMemberships, MemberKey, user)
         == MemberAfter(Find(state.voiceMemberships, MemberKey, user), event, user)
  {
    var members := state.voiceMemberships;
    FindHasKey(members, MemberKey, user);
    match event.eventType {
      case ChannelMemberJoined =>
        FindUpsert(members, event.data.membership.value, MemberKey, user);
      case ChannelMemberLeft =>
        FindRetain(members, NotLeaving(event.data.departure.value), MemberKey, user);
      case ChannelDeleted =>
        FindRetain(members, NotIn(event.data.entityId.value), MemberKey, user);
      case _ =>
    }
  }

  lemma EffectFollows(state: ClientState, event: StateEvent, next: ClientState)
    requires UniqueKeys(state) && Decodes(event) && next == Effect(state, event)
    ensures Follows(state, event, next)
  {
    forall id: Snowflake
      ensures Find(next.groups, GroupKey, id)
           == GroupAfter(Find(state.groups, GroupKey, id), event, id)
      ensures Find(next.channels, ChannelKey, id)
           == ChannelAfter(Find(state.channels, ChannelKey, id), event, id)
      ensures Find(next.users, UserKey, id)
           == UserAfter(Find(state.users, UserKey, id), event, id)
      ensures Find(next.voiceMemberships, MemberKey, id)
           == MemberAfter(Find(state.voiceMemberships, MemberKey, id), event, id)
    {
      GroupsFollow(state, event, id);
      ChannelsFollow(state, event, id);
      UsersFollow(state, event, id);
      MembersFollow(state, event, id);
    }
    forall key: string {
      RolesFollow(state, event, key);
    }
    AuthorityFollows(state, event);
  }

  lemma AuthorityFollows(state: ClientState, event: StateEvent)
    requires Decodes(event)
    ensures Effect(state, event).selfUser.voiceAuthority
         == AuthorityAfter(state.selfUser.voiceAuthority, event)
  {
  }

  /** One applied event: keys stay unique and every lookup moves as its own key says. */
  lemma ApplyFollows(state: ClientState, event: StateEvent)
    requires UniqueKeys(state) && ApplyEvent(state, event).Ok?
    ensures UniqueKeys(ApplyEvent(state, event).value)
    ensures Follows(state, event, ApplyEvent(state, event).value)
  {
    KeysStayUnique(state, event);
    EffectFollows(state, event, Effect(state, event));
  }

  /** The user's own state: replaced by its own event, and otherwise changed only in its authority. */
  function SelfAfter(prior: SelfUserState, event: StateEvent): SelfUserState {
    var own := if event.eventType == SelfUpdated && event.data.selfState.Some?
               then event.data.selfState.value else prior;
    own.(voiceAuthority := AuthorityAfter(prior.voiceAuthority, event))
  }

  /** What one applied event does outside the five tables. */
  lemma RestFollows(state: ClientState, event: StateEvent)
    requires ApplyEvent(state, event).Ok?
    ensures var next := ApplyEvent(state, event).value;
      && next.selfUser == SelfAfter(state.selfUser, event)
      && next.cursor == event.cursor && next.geid == event.geid
      && next.streamEpoch == state.streamEpoch && next.stateVersion == state.stateVersion
      && next.server == state.server
  {
  }

  // ----- whole runs ------------------------------------------------------------------------

  /** `base` with `events` applied in order; `None` once one is rejected. */
  function Fold(base: ClientState, events: seq<StateEvent>): Option<ClientState> {
    if |events| == 0 then Some(base)
    else
      var before := Fold(base, events[..|events| - 1]);
      if before.None? then None
      else
        match ApplyEvent(before.value, events[|events| - 1])
        case Ok(next) => Some(next)
        case Err(_) => None
  }

  /** The checkpoint cursor of a run is its last event's, and nothing outside the tables moves. */
  lemma {:induction false} RestHistory(base: ClientState, events: seq<StateEvent>)
    requires Fold(base, events).Some?
    ensures var end := Fold(base, events).value;
      && end.cursor == (if events == [] then base.cursor else events[|events| - 1].cursor)
      && end.streamEpoch == base.streamEpoch && end.stateVersion == base.stateVersion
      && end.server == base.server
  {
    hide ApplyEvent;
    if |events| > 0 {
      var n := |events| - 1;
      RestHistory(base, events[..n]);
      RestFollows(Fold(base, events[..n]).value, events[n]);
    }
  }

  function GroupHistory(prior: Option<Group>, events: seq<StateEvent>, id: Snowflake)
    : Option<Group>
  {
    if |events| == 0 then prior
    else GroupAfter(GroupHistory(prior, events[..|events| - 1], id), events[|events| - 1], id)
  }

  function ChannelHistory(prior: Option<Channel>, events: seq<StateEvent>, id: Snowflake)
    : Option<Channel>
  {
    if |events| == 0 then prior
    else ChannelAfter(ChannelHistory(prior, events[..|events| - 1], id), events[|events| - 1], id)
  }

  function UserHistory(prior: Option<UserPresence>, events: seq<StateEvent>, id: Snowflake)
    : Option<UserPresence>
  {
    if |events| == 0 then prior
    else UserAfter(UserHistory(prior, events[..|events| - 1], id), events[|events| - 1], id)
  }

  function RoleHistory(prior: Option<Role>, events: seq<StateEvent>, key: string): Option<Role> {
    if |events| == 0 then prior
    else RoleAfter(RoleHistory(prior, events[..|events| - 1], key), events[|events| - 1], key)
  }

  function MemberHistory(prior: Option<VoiceMembership>, events: seq<StateEvent>, user: Snowflake)
    : Option<VoiceMembership>
  {
    if |events| == 0 then prior
    else MemberAfter(MemberHistory(prior, events[..|events| - 1], user), events[|events| - 1], user)
  }

  function AuthorityHistory(prior: Option<VoiceAuthority>, events: seq<StateEvent>)
    : Option<VoiceAuthority>
  {
    if |events| == 0 then prior
    else AuthorityAfter(AuthorityHistory(prior, events[..|events| - 1]), events[|events| - 1])
  }

  /**
   From a snapshot with unique keys, every run of accepted events keeps keys unique
   (so at most one membership per user) and the lists are maps: each lookup equals
   the history of its own key.
   */
  lemma {:induction false} ListsAreMaps(base: ClientState, events: seq<StateEvent>)
    requires UniqueKeys(base) && Fold(base, events).Some?
    ensures UniqueKeys(Fold(base, events).value)
    ensures forall id: Snowflake :: Find(Fold(base, events).value.groups, GroupKey, id)
              == GroupHistory(Find(base.groups, GroupKey, id), events, id)
    ensures forall id: Snowflake :: Find(Fold(base, events).value.channels, ChannelKey, id)
              == ChannelHistory(Find(base.channels, ChannelKey, id), events, id)
    ensures forall id: Snowflake :: Find(Fold(base, events).value.users, UserKey, id)
              == UserHistory(Find(base.users, UserKey, id), events, id)
    ensures forall key: string :: Find(Fold(base, events).value.roles, RoleKey, key)
              == RoleHistory(Find(base.roles, RoleKey, key), events, key)
    ensures forall id: Snowflake :: Find(Fold(base, events).value.voiceMemberships, MemberKey, id)
              == MemberHistory(Find(base.voiceMemberships, MemberKey, id), events, id)
    ensures Fold(base, events).value.selfUser.voiceAuthority
         == AuthorityHistory(base.selfUser.voiceAuthority, events)
  {
    if |events| > 0 {
      var n := |events| - 1;
      ListsAreMaps(base, events[..n]);
      ApplyFollows(Fold(base, events[..n]).value, events[n]);
    }
  }

  // ----- what the last event to write a key wrote ------------------------------------------

  /** Which table a reader looks in, and for what. */
  datatype Key =
    | GroupId(id: Snowflake) | ChannelId(id: Snowflake) | UserId(id: Snowflake)
    | RoleName(key: string) | MemberOf(id: Snowflake)

  datatype Entry =
    | Absent
    | GroupEntry(group: Group) | ChannelEntry(channel: Channel) | UserEntry(user: UserPresence)
    | RoleEntry(role: Role) | MemberEntry(membership: VoiceMembership)

  function AsGroup(found: Option<Group>): Entry {
    if found.Some? then GroupEntry(found.value) else Absent
  }

  function AsChannel(found: Option<Channel>): Entry {
    if found.Some? then ChannelEntry(found.value) else Absent
  }

  function AsUser(found: Option<UserPresence>): Entry {
    if found.Some? then UserEntry(found.value) else Absent
  }

  function AsRole(found: Option<Role>): Entry {
    if found.Some? then RoleEntry(found.value) else Absent
  }

  function AsMember(found: Option<VoiceMembership>): Entry {
    if found.Some? then MemberEntry(found.value) else Absent
  }

  function LookUp(state: ClientState, key: Key): Entry {
    match key
    case GroupId(id) => AsGroup(Find(state.groups, GroupKey, id))
    case ChannelId(id) => AsChannel(Find(state.channels, ChannelKey, id))
    case UserId(id) => AsUser(Find(state.users, UserKey, id))
    case RoleName(name) => AsRole(Find(state.roles, RoleKey, name))
    case MemberOf(id) => AsMember(Find(state.voiceMemberships, MemberKey, id))
  }

  /** The entity the event carries, under its own key. */
  function Carried(event: StateEvent): Option<(Key, Entry)> {
    var data := event.data;
    match event.eventType
    case GroupCreated | GroupUpdated =>
      if data.group.Some? then Some((GroupId(data.group.value.id), GroupEntry(data.group.value))) else None
    case ChannelCreated | ChannelUpdated =>
      if data.channel.Some?
      then Some((ChannelId(data.channel.value.id), ChannelEntry(data.channel.value))) else None
    case UserCreated | UserUpdated | PresenceUpdated =>
      if data.user.Some? then Some((UserId(data.user.value.userId), UserEntry(data.user.value))) else None
    case RbacRoleCreated | RbacRoleUpdated =>
      if data.role.Some? then Some((RoleName(data.role.value.key), RoleEntry(data.role.value))) else None
    case ChannelMemberJoined =>
      if data.membership.Some?
      then Some((MemberOf(data.membership.value.userId), MemberEntry(data.membership.value))) else None
    case _ => None
  }

  /** The key the event removes, whatever stands there. */
  function Removed(event: StateEvent): Option<Key> {
    var data := event.data;
    match event.eventType
    case GroupDeleted => if data.entityId.Some? then Some(GroupId(data.entityId.value)) else None
    case ChannelDeleted => if data.entityId.Some? then Some(ChannelId(data.entityId.value)) else None
    case UserDeleted => if data.userId.Some? then Some(UserId(data.userId.value)) else None
    case RbacRoleDeleted => if data.roleKey.Some? then Some(RoleName(data.roleKey.value)) else None
    case _ => None
  }

  /** What the event alone puts under the key: an entity, or nothing where one was. */
  function Written(event: StateEvent, key: Key): Option<Entry> {
    if Carried(event).Some? && Carried(event).value.0 == key then Some(Carried(event).value.1)
    else if Removed(event) == Some(key) then Some(Absent)
    else None
  }

  /**
   Whether the event takes this entry away by naming something else: its group, its
   channel, or the user's departure from that very channel.
   */
  predicate Sweeps(event: StateEvent, entry: Entry) {
    match entry
    case ChannelEntry(channel) =>
      channel.groupId.Some? && Removed(event) == Some(GroupId(channel.groupId.value))
    case MemberEntry(m) =>
      || Removed(event) == Some(ChannelId(m.channelId))
      || (event.eventType == ChannelMemberLeft
          && event.data.departure == Some(Departure(m.userId, m.channelId)))
    case _ => false
  }

  /** One event on one entry: a write, a sweep, or nothing. */
  function Moved(entry: Entry, event: StateEvent, key: Key): Entry {
    if Written(event, key).Some? then Written(event, key).value
    else if Sweeps(event, entry) then Absent
    else entry
  }

  lemma GroupMoves(prior: Option<Group>, event: StateEvent, id: Snowflake)
    requires Decodes(event)
    ensures AsGroup(GroupAfter(prior, event, id)) == Moved(AsGroup(prior), event, GroupId(id))
  {
  }

  lemma ChannelMoves(prior: Option<Channel>, event: StateEvent, id: Snowflake)
    requires Decodes(event)
    ensures AsChannel(ChannelAfter(prior, event, id)) == Moved(AsChannel(prior), event, ChannelId(id))
  {
  }

  lemma UserMoves(prior: Option<UserPresence>, event: StateEvent, id: Snowflake)
    requires Decodes(event)
    ensures AsUser(UserAfter(prior, event, id)) == Moved(AsUser(prior), event, UserId(id))
  {
  }

  lemma RoleMoves(prior: Option<Role>, event: StateEvent, name: string)
    requires Decodes(event)
    ensures AsRole(RoleAfter(prior, event, name)) == Moved(AsRole(prior), event, RoleName(name))
  {
  }

  lemma MemberMoves(prior: Option<VoiceMembership>, event: StateEvent, id: Snowflake)
    requires Decodes(event) && (prior.Some? ==> prior.value.userId == id)
    ensures AsMember(MemberAfter(prior, event, id)) == Moved(AsMember(prior), event, MemberOf(id))
  {
  }

  /** One accepted event moves every lookup in every table so. */
  lemma LookUpMoves(state: ClientState, event: StateEvent, key: Key)
    requires UniqueKeys(state) && ApplyEvent(state, event).Ok?
    ensures LookUp(ApplyEvent(state, event).value, key) == Moved(LookUp(state, key), event, key)
  {
    hide UniqueKeys, Find, Moved, GroupAfter, ChannelAfter, UserAfter, RoleAfter, MemberAfter;
    ApplyFollows(state, event);
    OkDecodes(state, event);
    match key {
      case GroupId(id) => GroupMoves(Find(state.groups, GroupKey, id), event, id);
      case ChannelId(id) => ChannelMoves(Find(state.channels, ChannelKey, id), event, id);
      case UserId(id) => UserMoves(Find(state.users, UserKey, id), event, id);
      case RoleName(name) => RoleMoves(Find(state.roles, RoleKey, name), event, name);
      case MemberOf(id) =>
        FindHasKey(state.voiceMemberships, MemberKey, id);
        MemberMoves(Find(state.voiceMemberships, MemberKey, id), event, id);
    }
  }

  lemma OkDecodes(state: ClientState, event: StateEvent)
    requires ApplyEvent(state, event).Ok?
    ensures Decodes(event)
  {
  }

  /** No event of the run writes the key or sweeps this entry: a matter of the events alone. */
  ghost predicate LeftAlone(events: seq<StateEvent>, key: Key, entry: Entry) {
    forall event :: event in events ==> Written(event, key) == None && !Sweeps(event, entry)
  }

  lemma {:induction false} UntouchedStays(base: ClientState, events: seq<StateEvent>, key: Key)
    requires UniqueKeys(base) && Fold(base, events).Some?
    requires LeftAlone(events, key, LookUp(base, key))
    ensures LookUp(Fold(base, events).value, key) == LookUp(base, key)
  {
    hide ApplyEvent, UniqueKeys, LookUp, Written, Sweeps;
    if |events| > 0 {
      var n := |events| - 1;
      UntouchedStays(base, events[..n], key);
      ListsAreMaps(base, events[..n]);
      LookUpMoves(Fold(base, events[..n]).value, events[n], key);
      assert events[n] in events;
    }
  }

  /**
   In each of the five tables: if an event writes a key and no later one writes it again
   or sweeps what it wrote, the lookup after the run is what that event wrote.
   */
  lemma LastWriteDecides(base: ClientState, events: seq<StateEvent>, i: nat, key: Key)
    requires UniqueKeys(base) && Fold(base, events).Some? && i < |events|
    requires Written(events[i], key).Some?
    requires LeftAlone(events[i + 1..], key, Written(events[i], key).value)
    ensures LookUp(Fold(base, events).value, key) == Written(events[i], key).value
  {
    hide ApplyEvent, UniqueKeys, LookUp, Written, Sweeps, LeftAlone;
    var before, after := events[..i], events[i + 1..];
    SplitRun(base, events, i);
    ListsAreMaps(base, before);
    LookUpMoves(Fold(base, before).value, events[i], key);
    ListsAreMaps(base, before + [events[i]]);
    UntouchedStays(Fold(base, before + [events[i]]).value, after, key);
  }

  /** If the first later event to touch it sweeps it, and none writes the key again, it is gone. */
  lemma SweptIsAbsent(base: ClientState, events: seq<StateEvent>, i: nat, j: nat, key: Key)
    requires UniqueKeys(base) && Fold(base, events).Some? && i < j < |events|
    requires Written(events[i], key).Some? && Written(events[j], key) == None
    requires LeftAlone(events[i + 1..j], key, Written(events[i], key).value)
    requires Sweeps(events[j], Written(events[i], key).value)
    requires LeftAlone(events[j + 1..], key, Absent)
    ensures LookUp(Fold(base, events).value, key) == Absent
  {
    hide ApplyEvent, UniqueKeys, LookUp, Written, Sweeps, LeftAlone;
    var before, after := events[..j], events[j + 1..];
    SplitRun(base, events, j);
    assert before[i + 1..] == events[i + 1..j];
    LastWriteDecides(base, before, i, key);
    ListsAreMaps(base, before);
    LookUpMoves(Fold(base, before).value, events[j], key);
    ListsAreMaps(base, before + [events[j]]);
    UntouchedStays(Fold(base, before + [events[j]]).value, after, key);
  }

  /** A run that folds, folds up to, through and after any of its events. */
  lemma SplitRun(base: ClientState, events: seq<StateEvent>, i: nat)
    requires Fold(base, events).Some? && i < |events|
    ensures Fold(base, events[..i]).Some?
    ensures ApplyEvent(Fold(base, events[..i]).value, events[i]).Ok?
    ensures Fold(base, events[..i] + [events[i]])
         == Some(ApplyEvent(Fold(base, events[..i]).value, events[i]).value)
    ensures Fold(base, events)
         == Fold(ApplyEvent(Fold(base, events[..i]).value, events[i]).value, events[i + 1..])
  {
    hide ApplyEvent, Fold;
    var through := events[..i] + [events[i]];
    assert events == through + events[i + 1..];
    FoldConcat(base, through, events[i + 1..]);
    FoldConcat(base, events[..i], [events[i]]);
    FoldAppend(base, events[..i], events[i]);
  }

  /** A run may be cut anywhere: the second part continues from the end of the first. */
  lemma {:induction false} FoldConcat(base: ClientState, a: seq<StateEvent>, b: seq<StateEvent>)
    ensures Fold(base, a + b)
         == if Fold(base, a).None? then None else Fold(Fold(base, a).value, b)
    decreases |b|
  {
    if |b| == 0 {
      assert a + b == a;
    } else {
      FoldConcat(base, a, b[..|b| - 1]);
      assert (a + b)[..|a + b| - 1] == a + b[..|b| - 1];
    }
  }

  lemma {:induction false} FoldAppend(base: ClientState, events: seq<StateEvent>, event: StateEvent)
    requires Fold(base, events).Some?
    ensures Fold(base, events + [event])
         == match ApplyEvent(Fold(base, events).value, event)
            case Ok(next) => Some(next)
            case Err(_) => None
  {
    assert (events + [event])[..|events|] == events;
  }
}
