/**
 The client-side state projection and the events that evolve it
 (crates/zephyrvox-types/src/state.rs).

 JSON decoding is foreign to the model. An event carries what each decoder would
 make of its body (`Payload`) and the length of its own JSON encoding.
 */
module ClientModel {
  import opened Common

  type Snowflake = x: int | 0 < x < 0x8000_0000_0000_0000 witness 1
  type Geid = u64
  type Cursor = string

  datatype Presence = Presence(status: string, activity: Option<string>)

  datatype User = User(id: Snowflake, username: string, nickname: string, avatar: Option<string>)

  datatype UserPresence = UserPresence(
    userId: Snowflake, nickname: string, avatar: Option<string>, presence: Presence)

  datatype Role = Role(key: string, displayName: string, rank: int, builtin: bool)

  datatype Group = Group(
    id: Snowflake, name: string, position: int, visibility: string, version: string)

  datatype Channel = Channel(
    id: Snowflake, groupId: Option<Snowflake>, name: string, mode: string, temporary: bool,
    visibility: string, capacity: int, position: int, pinned: bool, version: string)

  datatype VoiceMembership = VoiceMembership(
    userId: Snowflake, channelId: Snowflake, joinedAt: int)

  datatype VoiceAuthority = VoiceAuthority(
    channelId: Snowflake, controlConnectionId: nat, voiceSessionId: nat, generation: string)

  datatype ServerState = ServerState(name: string, version: string)

  datatype SelfUserState = SelfUserState(
    user: User, serverRoleKeys: seq<string>, serverPermissions: seq<string>,
    presence: Presence, voiceAuthority: Option<VoiceAuthority>)

  /** Both the HTTP snapshot and the projection built from it: `from_snapshot` only renames. */
  datatype ClientState = ClientState(
    cursor: Cursor,
    streamEpoch: nat,
    geid: Geid,
    stateVersion: string,
    server: ServerState,
    selfUser: SelfUserState,
    users: seq<UserPresence>,
    roles: seq<Role>,
    groups: seq<Group>,
    channels: seq<Channel>,
    voiceMemberships: seq<VoiceMembership>)

  /** The closed table of event names, `Other` being any name outside it. */
  datatype EventType =
    | GroupCreated | GroupUpdated | GroupDeleted | GroupAccessUpdated
    | AclUpdated
    | ChannelCreated | ChannelUpdated | ChannelDeleted | ChannelAccessUpdated
    | ChannelMemberJoined | ChannelMemberLeft
    | UserCreated | UserUpdated | UserDeleted
    | PresenceUpdated
    | SelfUpdated
    | RbacRoleCreated | RbacRoleUpdated | RbacRoleDeleted
    | RbacBindingUpdated | RbacConfigUpdated
    | OwnerTransferred
    | ModerationMuteUpdated | ModerationMuteRemoved
    | VoiceAuthorityUpdated | VoiceRevoked | VoiceDisconnected | VoiceMembershipUpdated
    | ServerUpdated
    | VisibilityGrantBegin | VisibilityFragment | VisibilityGranted
    | VisibilityRevoked | VisibilityTombstone | VisibilityTransitionComplete
    | Other(name: string)

  datatype ScopeKind = ServerScope | GroupScope | ChannelScope | OtherScope(name: string)

  datatype EventScope = EventScope(kind: ScopeKind, id: Option<Snowflake>)

  datatype Departure = Departure(userId: Snowflake, channelId: Snowflake)

  /** What each payload decoder returns for one JSON body; `None` is a decoding failure. */
  datatype Payload = Payload(
    group: Option<Group>,
    entityId: Option<Snowflake>,
    channel: Option<Channel>,
    membership: Option<VoiceMembership>,
    departure: Option<Departure>,
    user: Option<UserPresence>,
    userId: Option<Snowflake>,
    selfState: Option<SelfUserState>,
    role: Option<Role>,
    roleKey: Option<string>,
    authority: Option<Option<VoiceAuthority>>)

  datatype StateEvent = StateEvent(
    frameType: string,
    geid: Geid,
    cursor: Cursor,
    eventClass: string,
    scope: EventScope,
    eventType: EventType,
    data: Payload,
    /** Length of the event's own JSON encoding; `None` when encoding fails. */
    encodedSize: Option<nat>)

  datatype StateApplyError =
    | InvalidEnvelope
    | GeidOrder(current: Geid, actual: Geid)
    | UnknownEvent(eventType: EventType)
    | SnapshotRequired(eventType: EventType)
    | InvalidPayload(eventType: EventType)
    | InvalidCursor
}
