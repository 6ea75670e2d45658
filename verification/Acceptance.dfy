/**
 Which events the projection accepts, told from the event alone, and how it answers the
 others (`validate_event` and the event tables of
 crates/zephyrvox-realtime/src/state/projection.rs).
 */
module Acceptance {
  import opened Common
  import opened ClientModel
  import opened Projection
  import opened KeyHistory

  // ----- the scopes events live in ---------------------------------------------------------

  predicate GroupEvent(t: EventType) {
    || t.GroupCreated? || t.GroupUpdated? || t.GroupDeleted? || t.GroupAccessUpdated?
  }

  predicate ChannelEvent(t: EventType) {
    || t.ChannelCreated? || t.ChannelUpdated? || t.ChannelDeleted? || t.ChannelAccessUpdated?
    || t.ChannelMemberJoined? || t.ChannelMemberLeft? || t.VoiceMembershipUpdated?
  }

  predicate ServerEvent(t: EventType) {
    || t.UserCreated? || t.UserUpdated? || t.UserDeleted? || t.PresenceUpdated?
    || t.SelfUpdated? || t.RbacRoleCreated? || t.RbacRoleUpdated? || t.RbacRoleDeleted?
    || t.OwnerTransferred? || t.VoiceAuthorityUpdated? || t.VoiceRevoked?
    || t.VoiceDisconnected? || t.ServerUpdated? || t.VisibilityTransitionComplete?
  }

  /** Access and moderation changes may concern the server, a group or a channel. */
  predicate RoamingEvent(t: EventType) {
    || t.AclUpdated? || t.RbacBindingUpdated? || t.RbacConfigUpdated?
    || t.ModerationMuteUpdated? || t.ModerationMuteRemoved?
  }

  /** A group or a channel comes into or goes out of sight. */
  predicate SightEvent(t: EventType) {
    || t.VisibilityGrantBegin? || t.VisibilityFragment? || t.VisibilityGranted?
    || t.VisibilityRevoked? || t.VisibilityTombstone?
  }

  predicate Known(t: EventType) {
    GroupEvent(t) || ChannelEvent(t) || ServerEvent(t) || RoamingEvent(t) || SightEvent(t)
  }

  /** Events that only a new snapshot can follow. */
  predicate SnapshotEvent(t: EventType) {
    SightEvent(t) || t.VisibilityTransitionComplete?
  }

  /** The scope is well formed, and one in which events of this type live. */
  predicate InScope(event: StateEvent) {
    var t, kind := event.eventType, event.scope.kind;
    && (if kind == ServerScope then event.scope.id == None
        else (kind == GroupScope || kind == ChannelScope) && event.scope.id.Some?)
    && (GroupEvent(t) ==> kind == GroupScope)
    && (ChannelEvent(t) ==> kind == ChannelScope)
    && (ServerEvent(t) ==> kind == ServerScope)
    && (SightEvent(t) ==> kind != ServerScope)
  }

  // ----- what the body has to say ----------------------------------------------------------

  /** Types whose body the projection reads; the rest carry nothing it keeps. */
  predicate ReadEvent(t: EventType) {
    || t.GroupCreated? || t.GroupUpdated? || t.GroupDeleted? || t.ChannelCreated?
    || t.ChannelUpdated? || t.ChannelDeleted? || t.ChannelMemberJoined?
    || t.ChannelMemberLeft? || t.UserCreated? || t.UserUpdated? || t.UserDeleted?
    || t.PresenceUpdated? || t.SelfUpdated? || t.RbacRoleCreated? || t.RbacRoleUpdated?
    || t.RbacRoleDeleted? || t.VoiceAuthorityUpdated?
  }

  /** The body says what an event of this type is about. */
  predicate HasBody(event: StateEvent) {
    ReadEvent(event.eventType) ==>
      || Carried(event).Some? || Removed(event).Some?
      || (event.eventType == ChannelMemberLeft && event.data.departure.Some?)
      || (event.eventType == SelfUpdated && event.data.selfState.Some?)
      || (event.eventType == VoiceAuthorityUpdated && event.data.authority.Some?)
  }

  lemma BodyDecodesExactly(event: StateEvent)
    ensures Decodes(event) <==> HasBody(event)
  {
  }

  // ----- the verdict -----------------------------------------------------------------------

  /** A live state event with a cursor. */
  predicate WellFormed(event: StateEvent) {
    event.frameType == "state.event" && event.eventClass == "state" && event.cursor != ""
  }

  predicate InTime(state: ClientState, event: StateEvent) {
    WellFormed(event) && event.geid > state.geid
  }

  lemma KnownExactly(eventType: EventType)
    ensures IsKnownStateEvent(eventType) <==> Known(eventType)
    ensures Known(eventType) <==> !eventType.Other?
    ensures IsVisibilityStateEvent(eventType) <==> SnapshotEvent(eventType)
  {
  }

  lemma ScopeExactly(event: StateEvent, geid: Geid)
    requires WellFormed(event) && event.geid > geid && Known(event.eventType)
    ensures ValidateEvent(event, geid) == if InScope(event) then None else Some(InvalidEnvelope)
  {
    KnownExactly(event.eventType);
  }

  /**
   An event applies exactly when it is well formed, newer than the store, in its scope, of
   a type that needs no snapshot, and its body says what it is about.
   */
  lemma AppliesExactly(state: ClientState, event: StateEvent)
    ensures ApplyEvent(state, event).Ok?
       <==> && InTime(state, event) && Known(event.eventType) && !SnapshotEvent(event.eventType)
            && InScope(event) && HasBody(event)
  {
    hide ValidateEvent, InScope, HasBody, Decodes, IsVisibilityStateEvent;
    KnownExactly(event.eventType);
    BodyDecodesExactly(event);
    if InTime(state, event) && Known(event.eventType) {
      ScopeExactly(event, state.geid);
    } else {
      OutsideIsRefused(state, event);
    }
  }

  lemma OutsideIsRefused(state: ClientState, event: StateEvent)
    requires !InTime(state, event) || !Known(event.eventType)
    ensures ValidateEvent(event, state.geid)
         == Some(if event.frameType != "state.event" || event.eventClass != "state" then InvalidEnvelope
                 else if event.cursor == "" then InvalidCursor
                 else if event.geid <= state.geid then GeidOrder(state.geid, event.geid)
                 else UnknownEvent(event.eventType))
  {
    KnownExactly(event.eventType);
  }

  /** When each answer other than a broken envelope is given. */
  lemma RefusedExactly(state: ClientState, event: StateEvent)
    ensures var r, t := ApplyEvent(state, event), event.eventType;
      && (r == Err(InvalidCursor) <==>
            event.frameType == "state.event" && event.eventClass == "state" && event.cursor == "")
      && (r == Err(GeidOrder(state.geid, event.geid)) <==>
            WellFormed(event) && event.geid <= state.geid)
      && (r == Err(UnknownEvent(t)) <==> InTime(state, event) && !Known(t))
      && (r == Err(SnapshotRequired(t)) <==>
            InTime(state, event) && SnapshotEvent(t) && InScope(event))
      && (r == Err(InvalidPayload(t)) <==>
            InTime(state, event) && Known(t) && InScope(event) && !HasBody(event))
  {
    hide ValidateEvent, InScope, HasBody, Decodes, IsVisibilityStateEvent, IsKnownStateEvent;
    KnownExactly(event.eventType);
    BodyDecodesExactly(event);
    SnapshotEventsHaveNoBody(event);
    if InTime(state, event) && Known(event.eventType) {
      ScopeExactly(event, state.geid);
    } else {
      OutsideIsRefused(state, event);
    }
  }

  lemma SnapshotEventsHaveNoBody(event: StateEvent)
    ensures SnapshotEvent(event.eventType) ==> HasBody(event)
  {
  }

  // ----- the scope of what an event names --------------------------------------------------

  /** The key an event writes, removes, or takes a departing user from. */
  function Named(event: StateEvent): Option<Key> {
    if Carried(event).Some? then Some(Carried(event).value.0)
    else if Removed(event).Some? then Removed(event)
    else if event.eventType == ChannelMemberLeft && event.data.departure.Some?
    then Some(MemberOf(event.data.departure.value.userId))
    else None
  }

  /** Groups live in a group's scope, channels and memberships in a channel's, the rest in the server's. */
  predicate HomeScope(key: Key, scope: EventScope) {
    match key
    case GroupId(_) => scope.kind == GroupScope && scope.id.Some?
    case ChannelId(_) => scope.kind == ChannelScope && scope.id.Some?
    case MemberOf(_) => scope.kind == ChannelScope && scope.id.Some?
    case UserId(_) => scope.kind == ServerScope && scope.id.None?
    case RoleName(_) => scope.kind == ServerScope && scope.id.None?
  }

  /** An event that names an entity applies exactly in that entity's scope, if newer and well formed. */
  lemma NamedAppliesExactly(state: ClientState, event: StateEvent)
    requires Named(event).Some?
    ensures ApplyEvent(state, event).Ok?
       <==> InTime(state, event) && HomeScope(Named(event).value, event.scope)
  {
    hide ApplyEvent;
    AppliesExactly(state, event);
    NamedIsRead(event);
  }

  lemma NamedIsRead(event: StateEvent)
    requires Named(event).Some?
    ensures Known(event.eventType) && !SnapshotEvent(event.eventType) && HasBody(event)
    ensures InScope(event) <==> HomeScope(Named(event).value, event.scope)
  {
  }
}
