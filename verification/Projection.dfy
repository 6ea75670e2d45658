/**
 Validation and application of one state event
 (crates/zephyrvox-realtime/src/state/projection.rs).

 The functions are the specification; `Draft` is the mutable clone that
 `apply_known_event` updates in place and is proved to follow them.
 */
module Projection {
  import opened Common
  import opened ClientModel
  import opened KeyedList

  // ----- the event tables ------------------------------------------------------------------

  predicate IsKnownStateEvent(eventType: EventType) {
    match eventType
    case GroupCreated | GroupUpdated | GroupDeleted | GroupAccessUpdated | AclUpdated => true
    case ChannelCreated | ChannelUpdated | ChannelDeleted | ChannelAccessUpdated => true
    case ChannelMemberJoined | ChannelMemberLeft => true
    case UserCreated | UserUpdated | UserDeleted | PresenceUpdated | SelfUpdated => true
    case RbacRoleCreated | RbacRoleUpdated | RbacRoleDeleted => true
    case RbacBindingUpdated | RbacConfigUpdated | OwnerTransferred => true
    case ModerationMuteUpdated | ModerationMuteRemoved => true
    case VoiceAuthorityUpdated | VoiceRevoked | VoiceDisconnected | VoiceMembershipUpdated => true
    case ServerUpdated => true
    case VisibilityGrantBegin | VisibilityFragment | VisibilityGranted => true
    case VisibilityRevoked | VisibilityTombstone | VisibilityTransitionComplete => true
    case Other(_) => false
  }

  function ExpectedScopeKind(eventType: EventType): Option<ScopeKind> {
    match eventType
    case GroupCreated | GroupUpdated | GroupDeleted | GroupAccessUpdated => Some(GroupScope)
    case ChannelCreated | ChannelUpdated | ChannelDeleted | ChannelAccessUpdated => Some(ChannelScope)
    case ChannelMemberJoined | ChannelMemberLeft | VoiceMembershipUpdated => Some(ChannelScope)
    case UserCreated | UserUpdated | UserDeleted | PresenceUpdated | SelfUpdated => Some(ServerScope)
    case RbacRoleCreated | RbacRoleUpdated | RbacRoleDeleted | OwnerTransferred => Some(ServerScope)
    case VoiceAuthorityUpdated | VoiceRevoked | VoiceDisconnected => Some(ServerScope)
    case ServerUpdated | VisibilityTransitionComplete => Some(ServerScope)
    case _ => None
  }

  predicate IsVisibilityScopeEvent(eventType: EventType) {
    match eventType
    case VisibilityGrantBegin | VisibilityFragment | VisibilityGranted => true
    case VisibilityRevoked | VisibilityTombstone => true
    case _ => false
  }

  predicate IsVisibilityStateEvent(eventType: EventType) {
    IsVisibilityScopeEvent(eventType) || eventType == VisibilityTransitionComplete
  }

  // ----- validation ------------------------------------------------------------------------

  /** The first check the event fails, in the order the SDK makes them. */
  function ValidateEvent(event: StateEvent, currentGeid: Geid): Option<StateApplyError> {
    if event.frameType != "state.event" || event.eventClass != "state" then Some(InvalidEnvelope)
    else if event.cursor == "" then Some(InvalidCursor)
    else if event.geid <= currentGeid then Some(GeidOrder(currentGeid, event.geid))
    else if !IsKnownStateEvent(event.eventType) then Some(UnknownEvent(event.eventType))
    else if event.scope.kind.OtherScope? then Some(InvalidEnvelope)
    else if event.scope.kind != ServerScope && event.scope.id == None then Some(InvalidEnvelope)
    else if event.scope.kind == ServerScope && event.scope.id != None then Some(InvalidEnvelope)
    else
      var expected := ExpectedScopeKind(event.eventType);
      if expected.Some? && event.scope.kind != expected.value then Some(InvalidEnvelope)
      else if IsVisibilityScopeEvent(event.eventType) && event.scope.kind == ServerScope
      then Some(InvalidEnvelope)
      else None
  }

  // ----- application -----------------------------------------------------------------------

  function GroupKey(group: Group): Snowflake { group.id }
  function ChannelKey(channel: Channel): Snowflake { channel.id }
  function UserKey(user: UserPresence): Snowflake { user.userId }
  function RoleKey(role: Role): string { role.key }
  function MemberKey(membership: VoiceMembership): Snowflake { membership.userId }

  function OtherGroup(id: Snowflake): Group -> bool { (g: Group) => g.id != id }
  function OutsideGroup(id: Snowflake): Channel -> bool { (c: Channel) => c.groupId != Some(id) }
  function OtherChannel(id: Snowflake): Channel -> bool { (c: Channel) => c.id != id }
  function OtherUser(id: Snowflake): UserPresence -> bool { (u: UserPresence) => u.userId != id }
  function OtherRole(key: string): Role -> bool { (r: Role) => r.key != key }
  function NotIn(channel: Snowflake): VoiceMembership -> bool {
    (m: VoiceMembership) => m.channelId != channel
  }
  function NotLeaving(left: Departure): VoiceMembership -> bool {
    (m: VoiceMembership) => m.userId != left.userId || m.channelId != left.channelId
  }

  function ClearAuthority(selfUser: SelfUserState, channel: Snowflake): SelfUserState {
    if selfUser.voiceAuthority.Some? && selfUser.voiceAuthority.value.channelId == channel
    then selfUser.(voiceAuthority := None)
    else selfUser
  }

  /** Whether the decoder that this event type uses accepts the body. */
  predicate Decodes(event: StateEvent) {
    var data := event.data;
    match event.eventType
    case GroupCreated | GroupUpdated => data.group.Some?
    case GroupDeleted | ChannelDeleted => data.entityId.Some?
    case ChannelCreated | ChannelUpdated => data.channel.Some?
    case ChannelMemberJoined => data.membership.Some?
    case ChannelMemberLeft => data.departure.Some?
    case UserCreated | UserUpdated | PresenceUpdated => data.user.Some?
    case UserDeleted => data.userId.Some?
    case SelfUpdated => data.selfState.Some?
    case RbacRoleCreated | RbacRoleUpdated => data.role.Some?
    case RbacRoleDeleted => data.roleKey.Some?
    case VoiceAuthorityUpdated => data.authority.Some?
    case _ => true
  }

  /** The replace, upsert or delete one event makes, given that its body decodes. */
  function Effect(state: ClientState, event: StateEvent): ClientState
    requires Decodes(event)
  {
    var data := event.data;
    match event.eventType
    case GroupCreated | GroupUpdated =>
      state.(groups := Upsert(state.groups, data.group.value, GroupKey))
    case GroupDeleted =>
      state.(groups := Retain(state.groups, OtherGroup(data.entityId.value)),
             channels := Retain(state.channels, OutsideGroup(data.entityId.value)))
    case ChannelCreated | ChannelUpdated =>
      state.(channels := Upsert(state.channels, data.channel.value, ChannelKey))
    case ChannelDeleted =>
      state.(channels := Retain(state.channels, OtherChannel(data.entityId.value)),
             voiceMemberships := Retain(state.voiceMemberships, NotIn(data.entityId.value)),
             selfUser := ClearAuthority(state.selfUser, data.entityId.value))
    case ChannelMemberJoined =>
      state.(voiceMemberships := Upsert(state.voiceMemberships, data.membership.value, MemberKey))
    case ChannelMemberLeft =>
      state.(voiceMemberships := Retain(state.voiceMemberships, NotLeaving(data.departure.value)))
    case UserCreated | UserUpdated | PresenceUpdated =>
      state.(users := Upsert(state.users, data.user.value, UserKey))
    case UserDeleted =>
      state.(users := Retain(state.users, OtherUser(data.userId.value)))
    case SelfUpdated =>
      state.(selfUser := data.selfState.value)
    case RbacRoleCreated | RbacRoleUpdated =>
      state.(roles := Upsert(state.roles, data.role.value, RoleKey))
    case RbacRoleDeleted =>
      state.(roles := Retain(state.roles, OtherRole(data.roleKey.value)))
    case VoiceAuthorityUpdated =>
      state.(selfUser := state.selfUser.(voiceAuthority := data.authority.value))
    case _ =>
      state
  }

  function ApplyKnownEvent(state: ClientState, event: StateEvent)
    : Result<ClientState, StateApplyError>
  {
    if !Decodes(event) then Err(InvalidPayload(event.eventType))
    else if IsVisibilityStateEvent(event.eventType) then Err(SnapshotRequired(event.eventType))
    else if event.eventType.Other? then Err(UnknownEvent(event.eventType))
    else Ok(Effect(state, event))
  }

  /** `StateStore::apply_event` on values: validate, apply, then move the checkpoint. */
  function ApplyEvent(state: ClientState, event: StateEvent): Result<ClientState, StateApplyError> {
    var invalid := ValidateEvent(event, state.geid);
    if invalid.Some? then Err(invalid.value)
    else
      match ApplyKnownEvent(state, event)
      case Err(error) => Err(error)
      case Ok(next) => Ok(next.(cursor := event.cursor, geid := event.geid))
  }

  /**
   The event tables agree: whatever validation lets through, application has a rule
   for. So an event is applied exactly when it validates, needs no snapshot and
   decodes, and `UnknownEvent` never comes from a validated event.
   */
  lemma ValidatedEventIsKnown(state: ClientState, event: StateEvent)
    ensures ApplyEvent(state, event).Ok?
       <==> && ValidateEvent(event, state.geid) == None
            && !IsVisibilityStateEvent(event.eventType)
            && Decodes(event)
    ensures ValidateEvent(event, state.geid) == None ==>
              ApplyEvent(state, event) != Err(UnknownEvent(event.eventType))
  {
  }

  /** Application never reads the checkpoint cursor, and always replaces it. */
  lemma ApplyIgnoresCursor(state: ClientState, event: StateEvent, cursor: Cursor)
    ensures ApplyEvent(state.(cursor := cursor), event) == ApplyEvent(state, event)
  {
    if Decodes(event) {
      assert Effect(state.(cursor := cursor), event) == Effect(state, event).(cursor := cursor) by {
        match event.eventType {
          case _ =>
        }
      }
    }
  }

  // ----- the mutable clone -----------------------------------------------------------------

  /** `&mut ClientState`: the private clone that one event is applied to. */
  class Draft {
    const streamEpoch: nat
    const stateVersion: string
    const server: ServerState
    const cursor: Cursor
    const geid: Geid
    var selfUser: SelfUserState
    var users: seq<UserPresence>
    var roles: seq<Role>
    var groups: seq<Group>
    var channels: seq<Channel>
    var voiceMemberships: seq<VoiceMembership>

    function View(): ClientState
      reads this
    {
      ClientState(cursor, streamEpoch, geid, stateVersion, server, selfUser,
                  users, roles, groups, channels, voiceMemberships)
    }

    constructor (state: ClientState)
      ensures View() == state
    {
      cursor, streamEpoch, geid := state.cursor, state.streamEpoch, state.geid;
      stateVersion, server, selfUser := state.stateVersion, state.server, state.selfUser;
      users, roles, groups := state.users, state.roles, state.groups;
      channels, voiceMemberships := state.channels, state.voiceMemberships;
    }

    /** `apply_known_event`; a rejected event leaves the draft as it was. */
    method ApplyKnown(event: StateEvent) returns (error: Option<StateApplyError>)
      modifies this
      ensures error.None? ==> ApplyKnownEvent(old(View()), event) == Ok(View())
      ensures error.Some? ==> ApplyKnownEvent(old(View()), event) == Err(error.value)
      ensures error.Some? ==> View() == old(View())
    {
      var data := event.data;
      var eventType := event.eventType;
      if !Decodes(event) {
        return Some(InvalidPayload(eventType));
      }
      match eventType {
        case GroupCreated | GroupUpdated =>
          groups := UpsertByKey(groups, data.group.value, GroupKey);
        case GroupDeleted =>
          groups := Retain(groups, OtherGroup(data.entityId.value));
          channels := Retain(channels, OutsideGroup(data.entityId.value));
        case ChannelCreated | ChannelUpdated =>
          channels := UpsertByKey(channels, data.channel.value, ChannelKey);
        case ChannelDeleted =>
          channels := Retain(channels, OtherChannel(data.entityId.value));
          voiceMemberships := Retain(voiceMemberships, NotIn(data.entityId.value));
          if selfUser.voiceAuthority.Some?
             && selfUser.voiceAuthority.value.channelId == data.entityId.value {
            selfUser := selfUser.(voiceAuthority := None);
          }
        case ChannelMemberJoined =>
          voiceMemberships := UpsertByKey(voiceMemberships, data.membership.value, MemberKey);
        case ChannelMemberLeft =>
          voiceMemberships := Retain(voiceMemberships, NotLeaving(data.departure.value));
        case UserCreated | UserUpdated | PresenceUpdated =>
          users := UpsertByKey(users, data.user.value, UserKey);
        case UserDeleted =>
          users := Retain(users, OtherUser(data.userId.value));
        case SelfUpdated =>
          selfUser := data.selfState.value;
        case RbacRoleCreated | RbacRoleUpdated =>
          roles := UpsertByKey(roles, data.role.value, RoleKey);
        case RbacRoleDeleted =>
          roles := Retain(roles, OtherRole(data.roleKey.value));
        case VoiceAuthorityUpdated =>
          selfUser := selfUser.(voiceAuthority := data.authority.value);
        case VoiceRevoked | VoiceDisconnected | VoiceMembershipUpdated =>
        case GroupAccessUpdated | AclUpdated | ChannelAccessUpdated =>
        case RbacBindingUpdated | RbacConfigUpdated | OwnerTransferred =>
        case ModerationMuteUpdated | ModerationMuteRemoved | ServerUpdated =>
        case _ =>
          if IsVisibilityStateEvent(eventType) {
            return Some(SnapshotRequired(eventType));
          }
          return Some(UnknownEvent(eventType));
      }
      return None;
    }
  }
}
