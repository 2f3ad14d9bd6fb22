/** SFU admission: a reservation transaction, signing outside any transaction, and a finalization
    transaction that revalidates everything (src/modules/sfu-admission/). Revocation, signing failures,
    maintenance and any change of authorization race with it. */
module SfuAdmission {
  import opened ChatTypes
  import opened Runs
  import opened Ordering

  // ---------------------------------------------------------------------------------------------
  // Policy
  // ---------------------------------------------------------------------------------------------

  datatype MeetingMode = VideoConference | AudioCall | Live
  datatype ProductRole = Host | Participant | Presenter | Viewer
  datatype SfuRole = SfuHost | SfuSpeaker | SfuViewer
  datatype E2eePolicy = Required | Optional | Disabled

  type Permission = string

  predicate RoleCombination(mode: MeetingMode, product: ProductRole, sfu: SfuRole) {
    || (product.Host? && sfu.SfuHost?)
    || (product.Viewer? && sfu.SfuViewer? && mode.Live?)
    || (product.Presenter? && sfu.SfuSpeaker? && mode.Live?)
    || (product.Participant? && sfu.SfuSpeaker? && !mode.Live?)
  }

  /** `None` stands for the refusals thrown by the policy. */
  function DerivePermissions(mode: MeetingMode, product: ProductRole, sfu: SfuRole, policy: E2eePolicy, member: bool)
    : (permissions: Option<seq<Permission>>)
    ensures permissions.Some? ==> |permissions.value| >= 3
  {
    if !RoleCombination(mode, product, sfu) || (policy.Required? && !member) then None
    else
      var mayPublish := !product.Viewer?;
      var mayShow := mayPublish && !mode.AudioCall? && (!mode.Live? || product.Host? || product.Presenter?);
      Some(["room:join", "transport:create:recv", "media:consume"]
           + (if mayPublish then ["transport:create:send", "media:produce:audio"] else [])
           + (if mayShow then ["media:produce:video"] else [])
           + (if product.Host? then ["room:moderate"] else [])
           + (if !policy.Disabled? && member then ["e2ee:enable"] else []))
  }

  /** Each product role goes with one SFU role, and the live roles with live meetings only. */
  lemma RolesFitTogether(mode: MeetingMode, product: ProductRole, sfu: SfuRole)
    ensures RoleCombination(mode, product, sfu) <==>
              && sfu == (if product == Host then SfuHost else if product == Viewer then SfuViewer else SfuSpeaker)
              && (product == Host || (mode == Live <==> product == Viewer || product == Presenter))
  {
  }

  /** Least privilege: who is refused, and who gets each permission. */
  lemma PermissionsAreLeast(mode: MeetingMode, product: ProductRole, sfu: SfuRole, policy: E2eePolicy, member: bool)
    ensures var granted := DerivePermissions(mode, product, sfu, policy, member);
            && (granted.None? <==> !RoleCombination(mode, product, sfu) || (policy.Required? && !member))
            && (granted.Some? ==>
                  && ("media:produce:audio" in granted.value <==> product != Viewer)
                  && ("media:produce:video" in granted.value <==> product != Viewer && mode != AudioCall)
                  && ("room:moderate" in granted.value <==> product == Host)
                  && ("e2ee:enable" in granted.value <==> policy != Disabled && member))
  {
    var join, receive, consume := "room:join", "transport:create:recv", "media:consume";
    var send, audio, video := "transport:create:send", "media:produce:audio", "media:produce:video";
    var moderate, enable := "room:moderate", "e2ee:enable";
    assert |join| == 9 && |receive| == 21 && |consume| == 13 && |send| == 21;
    assert |audio| == 19 && |video| == 19 && |moderate| == 13 && |enable| == 11;
    assert audio[14] == 'a' && video[14] == 'v' && consume[0] == 'm' && moderate[0] == 'r';
  }

  /** Everybody admitted may join and receive, and everybody but viewers may send. */
  lemma TransportsAreGranted(mode: MeetingMode, product: ProductRole, sfu: SfuRole, policy: E2eePolicy, member: bool)
    ensures var granted := DerivePermissions(mode, product, sfu, policy, member);
            granted.Some? ==>
              && |granted.value| >= 3
              && granted.value[0] == "room:join" && granted.value[1] == "transport:create:recv"
              && granted.value[2] == "media:consume"
              && (product != Viewer ==> |granted.value| >= 4 && granted.value[3] == "transport:create:send")
              && (product == Viewer ==> "transport:create:send" !in granted.value)
  {
    if product == Viewer { ViewersDoNotSend(mode, sfu, policy, member); }
  }

  lemma ViewersDoNotSend(mode: MeetingMode, sfu: SfuRole, policy: E2eePolicy, member: bool)
    ensures var granted := DerivePermissions(mode, Viewer, sfu, policy, member);
            granted.Some? ==> "transport:create:send" !in granted.value
  {
    var join, receive, consume, enable := "room:join", "transport:create:recv", "media:consume", "e2ee:enable";
    var send := "transport:create:send";
    assert |join| == 9 && |consume| == 13 && |enable| == 11 && |send| == 21;
    assert send[17] == 's' && receive[17] == 'r';
  }

  // Comparing lists by their NUL-joined text

  function Join(parts: seq<string>): string
    requires parts != []
  {
    if |parts| == 1 then parts[0] else parts[0] + ['\0'] + Join(parts[1..])
  }

  ghost predicate NulFree(text: string) {
    forall i | 0 <= i < |text| :: text[i] != '\0'
  }

  ghost predicate AllNulFree(parts: seq<string>) {
    forall part <- parts :: NulFree(part)
  }

  /** The joined text determines the list, because no part contains the separator. */
  lemma {:induction false} JoinIsInjective(a: seq<string>, b: seq<string>)
    requires a != [] && b != [] && AllNulFree(a) && AllNulFree(b)
    requires Join(a) == Join(b)
    ensures a == b
  {
    var x, y := a[0], b[0];
    assert NulFree(x) && NulFree(y);
    assert Join(a)[..|x|] == x && Join(b)[..|y|] == y;
    assert |x| == |y| by {
      assert |a| > 1 ==> Join(a)[|x|] == '\0';
      assert |b| > 1 ==> Join(b)[|y|] == '\0';
    }
    if |a| > 1 && |b| > 1 {
      assert Join(a)[|x| + 1..] == Join(a[1..]) && Join(b)[|y| + 1..] == Join(b[1..]);
      JoinIsInjective(a[1..], b[1..]);
      assert a == [x] + a[1..] && b == [y] + b[1..];
    }
  }

  lemma DerivedIsNulFree(mode: MeetingMode, product: ProductRole, sfu: SfuRole, policy: E2eePolicy, member: bool)
    ensures var permissions := DerivePermissions(mode, product, sfu, policy, member);
            permissions.Some? ==> AllNulFree(permissions.value)
  {
    assert NulFree("room:join") && NulFree("transport:create:recv") && NulFree("media:consume");
    assert NulFree("transport:create:send") && NulFree("media:produce:audio") && NulFree("media:produce:video");
    assert NulFree("room:moderate") && NulFree("e2ee:enable");
  }

  // ---------------------------------------------------------------------------------------------
  // Durable state
  // ---------------------------------------------------------------------------------------------

  datatype SessionState = SessionActive | Rotating | SessionRevoked | SessionExpired
  datatype ParticipantState = PendingKeySync | ParticipantActive | Left | ParticipantRevoked
  datatype MeetingState = Open | MeetingActive | Ending | Ended | MeetingExpired

  datatype Session = Session(participant: nat, state: SessionState, idleExpiresAt: nat, absoluteExpiresAt: nat)
  datatype Person = Person(meeting: nat, displayName: string, product: ProductRole, sfu: SfuRole,
                           version: nat, state: ParticipantState)
  datatype Meeting = Meeting(mode: MeetingMode, policy: E2eePolicy, state: MeetingState, expiresAt: nat)

  /** The tables authorization is read from; `mediaMembers` are participants with an active device in
      the active media group of their meeting. */
  datatype Authority = Authority(
    sessions: map<nat, Session>, people: map<nat, Person>, meetings: map<nat, Meeting>, mediaMembers: set<nat>)

  datatype AuditState = Requested | Issued | SignFailed | Invalidated

  datatype Audit = Audit(
    session: nat, participant: nat, meeting: nat, command: nat, tokenId: nat, keyId: nat,
    version: nat, state: AuditState, requestedAt: nat, expiresAt: nat)

  datatype Command = Command(commandId: nat, session: nat, participant: nat, meeting: nat)

  datatype Prepared = Prepared(
    auditId: nat, tokenId: nat, keyId: nat, session: nat, participant: nat, meeting: nat,
    displayName: string, role: SfuRole, permissions: seq<Permission>, version: nat,
    issuedAtSeconds: nat, expiresAtSeconds: nat)

  function Permissions(person: Person, meeting: Meeting, member: bool): Option<seq<Permission>> {
    DerivePermissions(meeting.mode, person.product, person.sfu, meeting.policy, member)
  }

  predicate SessionUsable(s: Session, now: nat) {
    (s.state.SessionActive? || s.state.Rotating?) && s.idleExpiresAt > now && s.absoluteExpiresAt > now
  }

  predicate PersonUsable(p: Person) {
    p.state.PendingKeySync? || p.state.ParticipantActive?
  }

  predicate MeetingUsable(m: Meeting, now: nat) {
    (m.state.Open? || m.state.MeetingActive?) && m.expiresAt > now
  }

  /** The row `SELECT_AUTHORIZATION` finds for a command. */
  predicate Authorized(authority: Authority, command: Command, now: nat) {
    && command.session in authority.sessions && command.participant in authority.people
    && command.meeting in authority.meetings
    && authority.sessions[command.session].participant == command.participant
    && authority.people[command.participant].meeting == command.meeting
    && SessionUsable(authority.sessions[command.session], now)
    && PersonUsable(authority.people[command.participant])
    && MeetingUsable(authority.meetings[command.meeting], now)
  }

  predicate Reserved(audits: map<nat, Audit>, session: nat, command: nat) {
    exists id :: id in audits && audits[id].session == session && audits[id].command == command
  }

  function Expiry(session: Session, ttlSeconds: nat, now: nat): nat {
    if now + ttlSeconds * 1_000 <= session.absoluteExpiresAt then now + ttlSeconds * 1_000
    else session.absoluteExpiresAt
  }

  /** Transaction A up to its insert; `None` is any refusal. */
  function Grant(authority: Authority, command: Command, keyId: nat, ttlSeconds: nat,
                 auditId: nat, tokenId: nat, now: nat): Option<Prepared>
  {
    if !Authorized(authority, command, now) then None
    else
      var session, person := authority.sessions[command.session], authority.people[command.participant];
      var meeting := authority.meetings[command.meeting];
      var permissions := Permissions(person, meeting, command.participant in authority.mediaMembers);
      var expiresAt := Expiry(session, ttlSeconds, now);
      if permissions.None? || expiresAt < now + 1_000 then None
      else Some(Prepared(auditId, tokenId, keyId, command.session, command.participant, command.meeting,
                         person.displayName, person.sfu, permissions.value, person.version,
                         now / 1_000, expiresAt / 1_000))
  }

  /** The audit row; unlike the token it keeps the expiry in milliseconds. */
  function Reservation(authority: Authority, p: Prepared, command: Command, ttlSeconds: nat, now: nat): Audit
    requires p.session in authority.sessions
  {
    Audit(p.session, p.participant, p.meeting, command.commandId, p.tokenId, p.keyId, p.version, Requested, now,
          Expiry(authority.sessions[p.session], ttlSeconds, now))
  }

  predicate Joined(authority: Authority, audit: Audit) {
    audit.session in authority.sessions && audit.participant in authority.people && audit.meeting in authority.meetings
  }

  predicate SameIdentity(audit: Audit, p: Prepared) {
    && audit.session == p.session && audit.participant == p.participant && audit.meeting == p.meeting
    && audit.tokenId == p.tokenId && audit.keyId == p.keyId && audit.version == p.version
  }

  /** `isStillAuthorized`, comparing the permission lists as the code does, by their joined text. */
  predicate StillAuthorized(authority: Authority, audit: Audit, p: Prepared, now: nat)
    requires Joined(authority, audit)
  {
    var session, person := authority.sessions[audit.session], authority.people[audit.participant];
    var meeting := authority.meetings[audit.meeting];
    && audit.state.Requested?
    && SameIdentity(audit, p)
    && person.version == p.version && person.sfu == p.role && person.displayName == p.displayName
    && SessionUsable(session, now) && PersonUsable(person) && MeetingUsable(meeting, now)
    && audit.expiresAt > now
    && var permissions := Permissions(person, meeting, audit.participant in authority.mediaMembers);
       permissions.Some? && p.permissions != [] && Join(permissions.value) == Join(p.permissions)
  }

  datatype Finalization = Finalization(audits: map<nat, Audit>, meetings: map<nat, Meeting>, valid: Option<bool>)

  /** Transaction B. A missing row and a row that is no longer requested roll it back (`None`). */
  function Finalize(authority: Authority, audits: map<nat, Audit>, p: Prepared, now: nat): Finalization {
    if p.auditId !in audits || !Joined(authority, audits[p.auditId]) || !audits[p.auditId].state.Requested? then
      Finalization(audits, authority.meetings, None)
    else
      var audit := audits[p.auditId];
      var valid := StillAuthorized(authority, audit, p, now);
      var meetings :=
        if valid && authority.meetings[audit.meeting].state.Open? && p.meeting in authority.meetings
           && authority.meetings[p.meeting].state.Open?
        then authority.meetings[p.meeting := authority.meetings[p.meeting].(state := MeetingActive)]
        else authority.meetings;
      Finalization(audits[p.auditId := audit.(state := if valid then Issued else Invalidated)], meetings, Some(valid))
  }

  function MarkFailed(audit: Audit): Audit {
    if audit.state.Requested? then audit.(state := SignFailed) else audit
  }

  predicate Revocable(audit: Audit, session: nat, now: nat) {
    audit.session == session && (audit.state.Requested? || audit.state.Issued?) && audit.expiresAt > now
  }

  function Revoke(audit: Audit, session: nat, now: nat): Audit {
    if Revocable(audit, session, now) then audit.(state := Invalidated) else audit
  }

  predicate ExpiredRequest(audit: Audit, now: nat) {
    audit.state.Requested? && audit.expiresAt <= now
  }

  predicate Disposable(audit: Audit, retentionMs: nat, now: nat) {
    !audit.state.Requested? && audit.requestedAt + retentionMs < now
  }

  /** Finalization answers "valid" exactly when, under its locks, the row is still requested and matches
      the prepared identity, key and version, nothing it stands on has ended or expired, and the policy
      derives the very same permission list again. */
  lemma ValidExactly(authority: Authority, audit: Audit, p: Prepared, now: nat)
    requires Joined(authority, audit) && p.permissions != [] && AllNulFree(p.permissions)
    ensures StillAuthorized(authority, audit, p, now) <==>
              var session, person := authority.sessions[audit.session], authority.people[audit.participant];
              var meeting := authority.meetings[audit.meeting];
              && audit.state == Requested && SameIdentity(audit, p)
              && person.version == p.version && person.sfu == p.role && person.displayName == p.displayName
              && SessionUsable(session, now) && PersonUsable(person) && MeetingUsable(meeting, now)
              && audit.expiresAt > now
              && Permissions(person, meeting, audit.participant in authority.mediaMembers) == Some(p.permissions)
  {
    var person, meeting := authority.people[audit.participant], authority.meetings[audit.meeting];
    var member := audit.participant in authority.mediaMembers;
    DerivedIsNulFree(meeting.mode, person.product, person.sfu, meeting.policy, member);
    var permissions := Permissions(person, meeting, member);
    if permissions.Some? && Join(permissions.value) == Join(p.permissions) {
      JoinIsInjective(permissions.value, p.permissions);
    }
  }

  /** A valid finalization issues its own row and leaves the meeting active; an invalid one invalidates the
      row and touches no meeting; every other row and meeting stays as it was. */
  lemma FinalizationOutcome(authority: Authority, audits: map<nat, Audit>, p: Prepared, now: nat)
    ensures var out := Finalize(authority, audits, p, now);
            && (out.valid == Some(true) ==>
                  && p.auditId in audits && out.audits == audits[p.auditId := audits[p.auditId].(state := Issued)]
                  && p.meeting in authority.meetings
                  && out.meetings == authority.meetings[p.meeting := authority.meetings[p.meeting].(state := MeetingActive)])
            && (out.valid == Some(false) ==>
                  && p.auditId in audits && out.audits == audits[p.auditId := audits[p.auditId].(state := Invalidated)]
                  && out.meetings == authority.meetings)
            && (out.valid.None? ==> out.audits == audits && out.meetings == authority.meetings)
  {
    var out := Finalize(authority, audits, p, now);
    if out.valid == Some(true) && authority.meetings[p.meeting].state.MeetingActive? {
      var meeting := authority.meetings[p.meeting];
      assert meeting.(state := MeetingActive) == meeting;
      assert authority.meetings[p.meeting := meeting] == authority.meetings;
    }
  }

  /** What the tables say about a session, a participant and a meeting that may be used together. */
  ghost predicate Usable(authority: Authority, session: nat, participant: nat, meeting: nat, now: nat) {
    && session in authority.sessions && participant in authority.people && meeting in authority.meetings
    && var s, p, m := authority.sessions[session], authority.people[participant], authority.meetings[meeting];
       && (s.state == SessionActive || s.state == Rotating) && s.idleExpiresAt > now && s.absoluteExpiresAt > now
       && (p.state == PendingKeySync || p.state == ParticipantActive)
       && (m.state == Open || m.state == MeetingActive) && m.expiresAt > now
  }

  /** The permissions the tables give a participant in a meeting, if any. */
  ghost function Derived(authority: Authority, participant: nat, meeting: nat): Option<seq<Permission>>
    requires participant in authority.people && meeting in authority.meetings
  {
    DerivePermissions(authority.meetings[meeting].mode, authority.people[participant].product,
                      authority.people[participant].sfu, authority.meetings[meeting].policy,
                      participant in authority.mediaMembers)
  }

  /** All that finalization asks for: the row is there and still requested for exactly this grant, nothing it
      stands on has changed or run out, and the policy derives the same list. */
  ghost predicate Issuable(authority: Authority, audits: map<nat, Audit>, p: Prepared, now: nat) {
    && p.auditId in audits
    && RequestedFor(audits[p.auditId], p, now)
    && Usable(authority, p.session, p.participant, p.meeting, now)
    && authority.people[p.participant].version == p.version
    && authority.people[p.participant].sfu == p.role
    && authority.people[p.participant].displayName == p.displayName
    && Derived(authority, p.participant, p.meeting) == Some(p.permissions)
  }

  ghost predicate RequestedFor(audit: Audit, p: Prepared, now: nat) {
    && audit.state == Requested && audit.expiresAt > now
    && audit.session == p.session && audit.participant == p.participant && audit.meeting == p.meeting
    && audit.tokenId == p.tokenId && audit.keyId == p.keyId && audit.version == p.version
  }

  /** Finalization answers "valid" if and only if the grant is issuable, and rolls back if and only if its row
      is missing, points to something missing, or is no longer requested. */
  lemma FinalizesExactly(authority: Authority, audits: map<nat, Audit>, p: Prepared, now: nat)
    requires p.permissions != [] && AllNulFree(p.permissions)
    ensures Finalize(authority, audits, p, now).valid == Some(true) <==> Issuable(authority, audits, p, now)
    ensures Finalize(authority, audits, p, now).valid == None <==>
              || p.auditId !in audits || audits[p.auditId].state != Requested
              || audits[p.auditId].session !in authority.sessions
              || audits[p.auditId].participant !in authority.people
              || audits[p.auditId].meeting !in authority.meetings
  {
    if p.auditId in audits && Joined(authority, audits[p.auditId]) {
      ValidExactly(authority, audits[p.auditId], p, now);
    }
  }

  /** A command is admitted if and only if its session, participant and meeting belong together and are
      usable, the policy derives permissions, and at least a second of the session is left; the grant
      carries what the tables say. */
  lemma GrantsExactly(authority: Authority, command: Command, keyId: nat, ttlSeconds: nat,
                      auditId: nat, tokenId: nat, now: nat)
    requires ttlSeconds >= 1
    ensures var grant := Grant(authority, command, keyId, ttlSeconds, auditId, tokenId, now);
            && (grant.Some? <==> Admissible(authority, command, now))
            && (grant.Some? ==>
                  && var p, person := grant.value, authority.people[command.participant];
                     && p.auditId == auditId && p.tokenId == tokenId && p.keyId == keyId
                     && p.session == command.session && p.participant == command.participant && p.meeting == command.meeting
                     && p.displayName == person.displayName && p.role == person.sfu && p.version == person.version
                     && Some(p.permissions) == Derived(authority, command.participant, command.meeting)
                     && p.issuedAtSeconds == now / 1_000)
  {
  }

  ghost predicate Admissible(authority: Authority, command: Command, now: nat) {
    && Usable(authority, command.session, command.participant, command.meeting, now)
    && authority.sessions[command.session].participant == command.participant
    && authority.people[command.participant].meeting == command.meeting
    && authority.sessions[command.session].absoluteExpiresAt >= now + 1_000
    && Derived(authority, command.participant, command.meeting) != None
  }

  /** In whole seconds a token expires after it was issued, at most the configured time later, and never
      after its session or its audit row. */
  lemma GrantIsBounded(authority: Authority, command: Command, keyId: nat, ttlSeconds: nat,
                       auditId: nat, tokenId: nat, now: nat)
    ensures var grant := Grant(authority, command, keyId, ttlSeconds, auditId, tokenId, now);
            grant.Some? ==>
              && grant.value.session in authority.sessions
              && grant.value.issuedAtSeconds < grant.value.expiresAtSeconds
                 <= grant.value.issuedAtSeconds + ttlSeconds
              && grant.value.expiresAtSeconds * 1_000 <= authority.sessions[command.session].absoluteExpiresAt
              && grant.value.expiresAtSeconds * 1_000
                 <= Reservation(authority, grant.value, command, ttlSeconds, now).expiresAt
              && AllNulFree(grant.value.permissions) && grant.value.permissions != []
  {
    var grant := Grant(authority, command, keyId, ttlSeconds, auditId, tokenId, now);
    if grant.Some? {
      var person, meeting := authority.people[command.participant], authority.meetings[command.meeting];
      DerivedIsNulFree(meeting.mode, person.product, person.sfu, meeting.policy,
                       command.participant in authority.mediaMembers);
    }
  }

  // ---------------------------------------------------------------------------------------------
  // The repository
  // ---------------------------------------------------------------------------------------------

  class SfuAdmissionRepository {
    var authority: Authority
    var audits: map<nat, Audit>
    const ttlSeconds: nat

    constructor (authority: Authority, ttlSeconds: nat)
      ensures this.authority == authority && audits == map[] && this.ttlSeconds == ttlSeconds
    {
      this.authority, this.ttlSeconds, audits := authority, ttlSeconds, map[];
    }

    method Prepare(command: Command, keyId: nat, auditId: nat, tokenId: nat, now: nat) returns (prepared: Option<Prepared>)
      requires auditId !in audits
      modifies this`audits
      ensures prepared == if Reserved(old(audits), command.session, command.commandId) then None
                          else Grant(authority, command, keyId, ttlSeconds, auditId, tokenId, now)
      ensures audits == if prepared.None? then old(audits)
                        else old(audits)[auditId := Reservation(authority, prepared.value, command, ttlSeconds, now)]
      ensures ttlSeconds >= 1 ==>
                (prepared.Some? <==>
                   && Admissible(authority, command, now)
                   && forall id <- old(audits) ::
                        old(audits)[id].session != command.session || old(audits)[id].command != command.commandId)
      ensures prepared.Some? ==>
                && auditId in audits && command.session in authority.sessions
                && RequestedFor(audits[auditId], prepared.value, now)
                && audits[auditId].command == command.commandId && audits[auditId].requestedAt == now
                && audits[auditId].expiresAt <= authority.sessions[command.session].absoluteExpiresAt
                && audits[auditId].expiresAt <= now + ttlSeconds * 1_000
                && (audits[auditId].expiresAt == authority.sessions[command.session].absoluteExpiresAt
                    || audits[auditId].expiresAt == now + ttlSeconds * 1_000)
    {
      if ttlSeconds >= 1 { GrantsExactly(authority, command, keyId, ttlSeconds, auditId, tokenId, now); }
      prepared := Grant(authority, command, keyId, ttlSeconds, auditId, tokenId, now);
      if prepared.None? { return; }
      if Reserved(audits, command.session, command.commandId) {
        prepared := None;
        return;
      }
      audits := audits[auditId := Reservation(authority, prepared.value, command, ttlSeconds, now)];
    }

    method FinalizeGrant(p: Prepared, now: nat) returns (valid: Option<bool>)
      modifies this
      ensures var out := Finalize(old(authority), old(audits), p, now);
              && audits == out.audits && valid == out.valid
              && authority == old(authority).(meetings := out.meetings)
      ensures p.permissions != [] && AllNulFree(p.permissions) ==>
                && (valid == Some(true) <==> Issuable(old(authority), old(audits), p, now))
                && (valid == Some(true) ==> audits == old(audits)[p.auditId := old(audits)[p.auditId].(state := Issued)])
                && (valid == Some(false) ==> audits == old(audits)[p.auditId := old(audits)[p.auditId].(state := Invalidated)])
                && (valid == None ==> audits == old(audits))
    {
      if p.permissions != [] && AllNulFree(p.permissions) { FinalizesExactly(authority, audits, p, now); }
      FinalizationOutcome(authority, audits, p, now);
      if p.auditId !in audits || !Joined(authority, audits[p.auditId]) { return None; }
      var audit := audits[p.auditId];
      var still := StillAuthorized(authority, audit, p, now);
      if !audit.state.Requested? { return None; }
      audits := audits[p.auditId := audit.(state := if still then Issued else Invalidated)];
      if still && authority.meetings[audit.meeting].state.Open? {
        if p.meeting in authority.meetings && authority.meetings[p.meeting].state.Open? {
          authority := authority.(meetings :=
            authority.meetings[p.meeting := authority.meetings[p.meeting].(state := MeetingActive)]);
        }
      }
      return Some(still);
    }

    method MarkSigningFailed(auditId: nat)
      modifies this`audits
      ensures audits == if auditId in old(audits) then old(audits)[auditId := MarkFailed(old(audits)[auditId])]
                        else old(audits)
      ensures audits.Keys == old(audits).Keys
      ensures forall id <- audits ::
                audits[id] == if id == auditId && old(audits)[id].state == Requested
                              then old(audits)[id].(state := SignFailed) else old(audits)[id]
    {
      if auditId in audits {
        if audits[auditId].state.Requested? {
          audits := audits[auditId := audits[auditId].(state := SignFailed)];
        } else {
          assert audits == audits[auditId := audits[auditId]];
        }
      }
    }

    method InvalidateSession(session: nat, now: nat) returns (count: nat)
      modifies this`audits
      ensures audits == map id | id in old(audits) :: Revoke(old(audits)[id], session, now)
      ensures count == |set id | id in old(audits) && Revocable(old(audits)[id], session, now)|
      ensures forall id <- audits ::
                audits[id] ==
                  if old(audits)[id].session == session && old(audits)[id].expiresAt > now
                     && (old(audits)[id].state == Requested || old(audits)[id].state == Issued)
                  then old(audits)[id].(state := Invalidated) else old(audits)[id]
    {
      count := 0;
      var left := audits.Keys;
      ghost var done: set<nat> := {};
      while left != {}
        invariant left <= old(audits).Keys && audits.Keys == old(audits).Keys
        invariant forall id <- audits ::
          audits[id] == if id in left then old(audits)[id] else Revoke(old(audits)[id], session, now)
        invariant done == set id | id in old(audits) && id !in left && Revocable(old(audits)[id], session, now)
        invariant count == |done|
        decreases |left|
      {
        var id :| id in left;
        left := left - {id};
        if Revocable(audits[id], session, now) {
          audits := audits[id := audits[id].(state := Invalidated)];
          count := count + 1;
          done := done + {id};
        }
      }
      assert done == set id | id in old(audits) && Revocable(old(audits)[id], session, now);
    }

    /** First requests that ran out are invalidated, oldest expiry first, then old finished rows are
        deleted, oldest request first, each in one bounded batch that skips the rows in `busy`, which
        concurrent transactions have locked. */
    method Maintain(batchSize: nat, retentionMs: nat, busy: set<nat>, now: nat)
      returns (invalidated: seq<nat>, deleted: seq<nat>)
      modifies this`audits
      ensures IsFirst(ExpiredRequests(old(audits), busy, now), batchSize, invalidated)
      ensures IsFirst(Disposables(Invalidate(old(audits), invalidated), busy, retentionMs, now), batchSize, deleted)
      ensures audits == Invalidate(old(audits), invalidated) - Elements(deleted)
      ensures forall id <- invalidated ::
                id in old(audits) && id !in busy && old(audits)[id].state == Requested && old(audits)[id].expiresAt <= now
      ensures forall id <- deleted ::
                && id in old(audits) && id !in busy && old(audits)[id].requestedAt + retentionMs < now
                && (old(audits)[id].state != Requested || id in invalidated)
      ensures |invalidated| < batchSize ==>
                forall id <- old(audits) | id !in busy && old(audits)[id].state == Requested ::
                  old(audits)[id].expiresAt <= now ==> id in invalidated
      ensures |deleted| < batchSize ==>
                forall id <- audits | id !in busy && audits[id].state != Requested :: audits[id].requestedAt + retentionMs >= now
    {
      invalidated := First(ExpiredRequests(audits, busy, now), batchSize);
      audits := Invalidate(audits, invalidated);
      deleted := First(Disposables(audits, busy, retentionMs, now), batchSize);
      audits := audits - Elements(deleted);
    }
  }

  /** Requests that ran out, in order of expiry. */
  function ExpiredRequests(audits: map<nat, Audit>, busy: set<nat>, now: nat): Ranks {
    map id | id in audits && id !in busy && ExpiredRequest(audits[id], now) :: (audits[id].expiresAt, 0)
  }

  /** Finished rows past their retention, in order of request. */
  function Disposables(audits: map<nat, Audit>, busy: set<nat>, retentionMs: nat, now: nat): Ranks {
    map id | id in audits && id !in busy && Disposable(audits[id], retentionMs, now) :: (audits[id].requestedAt, 0)
  }

  function Invalidate(audits: map<nat, Audit>, ids: seq<nat>): map<nat, Audit> {
    map id | id in audits :: if id in ids then audits[id].(state := Invalidated) else audits[id]
  }

  /** One round of maintenance is one sweep of the racing model: it only invalidates requests that ran out
      and only deletes rows that are not requested any more, and never more than a batch of each. */
  lemma MaintenanceSweeps(w: World, batchSize: nat, retentionMs: nat, busy: set<nat>,
                          invalidated: seq<nat>, deleted: seq<nat>)
    requires IsFirst(ExpiredRequests(w.audits, busy, w.now), batchSize, invalidated)
    requires IsFirst(Disposables(Invalidate(w.audits, invalidated), busy, retentionMs, w.now), batchSize, deleted)
    ensures var step := Sweep(Elements(invalidated), Elements(deleted));
            && Enabled(w, step)
            && Apply(w, step).audits == Invalidate(w.audits, invalidated) - Elements(deleted)
            && forall id <- busy | id in w.audits :: id in Apply(w, step).audits && Apply(w, step).audits[id] == w.audits[id]
  {
    forall id <- Elements(deleted) ensures id in w.audits && (!w.audits[id].state.Requested? || id in invalidated) {
      assert id in deleted;
    }
    forall id <- Elements(invalidated) ensures id in w.audits && ExpiredRequest(w.audits[id], w.now) {
      assert id in invalidated;
    }
  }

  // ---------------------------------------------------------------------------------------------
  // Admission requests racing with everything else
  // ---------------------------------------------------------------------------------------------

  datatype Request = Signing(prepared: Prepared) | Signed(prepared: Prepared)

  /** A token handed to a client: what it grants and what finalization saw under its locks. */
  datatype Token = Token(prepared: Prepared, seen: Authority, audit: Audit, at: nat)

  /** `used` are all audit identifiers ever drawn; `tokens` are all tokens ever returned. */
  datatype World = World(
    now: nat, authority: Authority, audits: map<nat, Audit>, requests: map<nat, Request>,
    used: set<nat>, tokens: seq<Token>)

  datatype Step =
    | Tick(now: nat)
    | ChangeAuthority(authority: Authority)
    | PrepareRequest(request: nat, command: Command, keyId: nat, ttlSeconds: nat, auditId: nat, tokenId: nat)
    | SignSucceeds(request: nat)
    | SignFails(request: nat, recorded: bool)
    | FinalizeRequest(request: nat)
    | RevokeSession(session: nat)
    | Sweep(invalidated: set<nat>, deleted: set<nat>)
    | Crash(request: nat)

  ghost predicate Enabled(w: World, step: Step) {
    match step
    case Tick(now) => now >= w.now
    case ChangeAuthority(_) => true
    case PrepareRequest(request, _, _, _, auditId, _) => request !in w.requests && auditId !in w.used
    case SignSucceeds(request) => request in w.requests && w.requests[request].Signing?
    case SignFails(request, _) => request in w.requests && w.requests[request].Signing?
    case FinalizeRequest(request) => request in w.requests && w.requests[request].Signed?
    case RevokeSession(_) => true
    case Sweep(invalidated, deleted) =>
      && invalidated <= w.audits.Keys && (forall id <- invalidated :: ExpiredRequest(w.audits[id], w.now))
      && deleted <= w.audits.Keys && (forall id <- deleted :: !w.audits[id].state.Requested? || id in invalidated)
    case Crash(request) => request in w.requests
  }

  function PrepareStep(w: World, request: nat, command: Command, keyId: nat, ttlSeconds: nat,
                       auditId: nat, tokenId: nat): World
  {
    var prepared := Grant(w.authority, command, keyId, ttlSeconds, auditId, tokenId, w.now);
    if prepared.None? || Reserved(w.audits, command.session, command.commandId) then w
    else w.(audits := w.audits[auditId := Reservation(w.authority, prepared.value, command, ttlSeconds, w.now)],
            requests := w.requests[request := Signing(prepared.value)],
            used := w.used + {auditId})
  }

  function FinalizeStep(w: World, request: nat): World
    requires request in w.requests
  {
    var p := w.requests[request].prepared;
    var out := Finalize(w.authority, w.audits, p, w.now);
    w.(audits := out.audits, authority := w.authority.(meetings := out.meetings), requests := w.requests - {request},
       tokens := w.tokens + if out.valid == Some(true) && p.auditId in w.audits
                            then [Token(p, w.authority, w.audits[p.auditId], w.now)] else [])
  }

  function Apply(w: World, step: Step): World
    requires Enabled(w, step)
  {
    match step
    case Tick(now) => w.(now := now)
    case ChangeAuthority(authority) => w.(authority := authority)
    case PrepareRequest(request, command, keyId, ttlSeconds, auditId, tokenId) =>
      PrepareStep(w, request, command, keyId, ttlSeconds, auditId, tokenId)
    case SignSucceeds(request) => w.(requests := w.requests[request := Signed(w.requests[request].prepared)])
    case SignFails(request, recorded) =>
      var id := w.requests[request].prepared.auditId;
      w.(requests := w.requests - {request},
         audits := if recorded && id in w.audits then w.audits[id := MarkFailed(w.audits[id])] else w.audits)
    case FinalizeRequest(request) => FinalizeStep(w, request)
    case RevokeSession(session) => w.(audits := map id | id in w.audits :: Revoke(w.audits[id], session, w.now))
    case Sweep(invalidated, deleted) =>
      w.(audits := map id | id in w.audits && id !in deleted ::
        if id in invalidated then w.audits[id].(state := Invalidated) else w.audits[id])
    case Crash(request) => w.(requests := w.requests - {request})
  }

  /** A returned token was valid when finalization looked, permission list included. */
  ghost predicate TokenSound(token: Token) {
    && token.prepared.permissions != [] && AllNulFree(token.prepared.permissions)
    && Joined(token.seen, token.audit)
    && StillAuthorized(token.seen, token.audit, token.prepared, token.at)
  }

  ghost predicate RequestSound(used: set<nat>, p: Prepared) {
    p.auditId in used && p.permissions != [] && AllNulFree(p.permissions)
  }

  ghost predicate TokensSound(tokens: seq<Token>, audits: map<nat, Audit>, used: set<nat>) {
    && (forall i | 0 <= i < |tokens| ::
          && TokenSound(tokens[i])
          && tokens[i].prepared.auditId in used
          && (tokens[i].prepared.auditId in audits ==> !audits[tokens[i].prepared.auditId].state.Requested?))
    && (forall i, j | 0 <= i < j < |tokens| :: tokens[i].prepared.auditId != tokens[j].prepared.auditId)
  }

  ghost predicate UniqueCommands(audits: map<nat, Audit>) {
    forall a, b | a in audits && b in audits
      && audits[a].session == audits[b].session && audits[a].command == audits[b].command :: a == b
  }

  ghost predicate Inv(w: World) {
    && w.audits.Keys <= w.used
    && (forall r <- w.requests :: RequestSound(w.used, w.requests[r].prepared))
    && TokensSound(w.tokens, w.audits, w.used)
    && UniqueCommands(w.audits)
  }

  lemma PrepareKeepsInv(w: World, step: Step)
    requires Inv(w) && Enabled(w, step) && step.PrepareRequest?
    ensures Inv(Apply(w, step))
  {
    GrantIsBounded(w.authority, step.command, step.keyId, step.ttlSeconds, step.auditId, step.tokenId, w.now);
    var t := Apply(w, step);
    assert TokensSound(t.tokens, t.audits, t.used);
  }

  /** The rows after a finalization: the same rows, of which only its own changed, to a settled state. */
  lemma FinalizeTouchesOne(w: World, request: nat)
    requires request in w.requests
    ensures var t, id := FinalizeStep(w, request), w.requests[request].prepared.auditId;
            && t.audits.Keys == w.audits.Keys
            && (forall other <- w.audits | other != id :: t.audits[other] == w.audits[other])
            && (id in w.audits ==> t.audits[id] == w.audits[id] || !t.audits[id].state.Requested?)
            && (id in w.audits ==> t.audits[id] == w.audits[id].(state := t.audits[id].state))
  {
  }

  /** A finalization that returns a token found its row requested and valid, and settled it. */
  lemma FinalizeMintsSound(w: World, request: nat)
    requires request in w.requests && RequestSound(w.used, w.requests[request].prepared)
    ensures var t, p := FinalizeStep(w, request), w.requests[request].prepared;
            || t.tokens == w.tokens
            || (&& p.auditId in w.audits && w.audits[p.auditId].state.Requested?
                && t.tokens == w.tokens + [Mint(w, p)] && TokenSound(Mint(w, p))
                && p.auditId in t.audits && !t.audits[p.auditId].state.Requested?)
  {
    var p := w.requests[request].prepared;
    assert p.auditId in w.audits ==> [Mint(w, p)] == [Token(p, w.authority, w.audits[p.auditId], w.now)];
  }

  lemma SettledTokensStay(tokens: seq<Token>, before: map<nat, Audit>, after: map<nat, Audit>, used: set<nat>)
    requires TokensSound(tokens, before, used) && after.Keys <= before.Keys
    requires forall id <- after :: !before[id].state.Requested? ==> !after[id].state.Requested?
    ensures TokensSound(tokens, after, used)
  {
  }

  lemma AddToken(tokens: seq<Token>, token: Token, audits: map<nat, Audit>, used: set<nat>)
    requires TokensSound(tokens, audits, used) && TokenSound(token) && token.prepared.auditId in used
    requires token.prepared.auditId in audits && !audits[token.prepared.auditId].state.Requested?
    requires forall i | 0 <= i < |tokens| :: tokens[i].prepared.auditId != token.prepared.auditId
    ensures TokensSound(tokens + [token], audits, used)
  {
  }

  lemma FinalizeKeepsInv(w: World, request: nat)
    requires Inv(w) && request in w.requests
    ensures Inv(FinalizeStep(w, request))
  {
    var p := w.requests[request].prepared;
    var t := FinalizeStep(w, request);
    assert RequestSound(w.used, p);
    FinalizeTouchesOne(w, request);
    FinalizeMintsSound(w, request);
    SettledTokensStay(w.tokens, w.audits, t.audits, w.used);
    if t.tokens != w.tokens { AddToken(w.tokens, Mint(w, p), t.audits, w.used); }
  }

  lemma OtherKeepsInv(w: World, step: Step)
    requires Inv(w) && Enabled(w, step) && !step.PrepareRequest? && !step.FinalizeRequest?
    ensures Inv(Apply(w, step))
  {
    SettledTokensStay(w.tokens, w.audits, Apply(w, step).audits, w.used);
  }

  lemma StepKeepsInv(w: World, step: Step)
    requires Inv(w) && Enabled(w, step)
    ensures Inv(Apply(w, step))
  {
    match step {
      case PrepareRequest(_, _, _, _, _, _) => PrepareKeepsInv(w, step);
      case FinalizeRequest(request) => FinalizeKeepsInv(w, request);
      case _ => OtherKeepsInv(w, step);
    }
  }

  // ---------------------------------------------------------------------------------------------
  // Theorems over every run
  // ---------------------------------------------------------------------------------------------

  ghost predicate Next(w: World, v: World) {
    exists step :: Enabled(w, step) && v == Apply(w, step)
  }

  /** A run that starts without admissions, under any authorization state. */
  ghost predicate IsAdmissionRun(states: seq<World>) {
    && IsRun(Next, states)
    && states[0] == World(states[0].now, states[0].authority, map[], map[], {}, [])
  }

  lemma RunsKeepInv(states: seq<World>)
    requires IsAdmissionRun(states)
    ensures forall i | 0 <= i < |states| :: Inv(states[i])
  {
    forall w, v | Inv(w) && Next(w, v) ensures Inv(v) {
      var step :| Enabled(w, step) && v == Apply(w, step);
      StepKeepsInv(w, step);
    }
    Invariance(Inv, Next, states);
  }

  /** One step returns at most one token, which records the authorization, the row and the clock of the
      very state in which finalization looked. */
  lemma StepMints(w: World, step: Step)
    requires Enabled(w, step)
    ensures var tokens := Apply(w, step).tokens;
            || tokens == w.tokens
            || exists p: Prepared :: p.auditId in w.audits && tokens == w.tokens + [Mint(w, p)]
  {
    if step.FinalizeRequest? {
      var p := w.requests[step.request].prepared;
      assert p.auditId in w.audits ==> [Mint(w, p)] == [Token(p, w.authority, w.audits[p.auditId], w.now)];
    }
  }

  /** The token that finalization of `p` in `w` hands out. */
  function Mint(w: World, p: Prepared): Token
    requires p.auditId in w.audits
  {
    Token(p, w.authority, w.audits[p.auditId], w.now)
  }

  /** The `k`-th token was returned by the step from state `j`, which is the state it was validated in. */
  ghost predicate Minted(states: seq<World>, j: nat, k: nat, token: Token) {
    && j + 1 < |states|
    && |states[j].tokens| == k
    && token.prepared.auditId in states[j].audits
    && token == Mint(states[j], token.prepared)
    && states[j + 1].tokens == states[j].tokens + [token]
  }

  lemma {:induction false} TokensAreMinted(states: seq<World>, i: nat, k: nat)
    requires IsAdmissionRun(states) && i < |states| && k < |states[i].tokens|
    ensures exists j: nat :: j < i && Minted(states, j, k, states[i].tokens[k])
    decreases i
  {
    var before := states[i - 1];
    assert Next(before, states[i - 1 + 1]);
    var step :| Enabled(before, step) && states[i] == Apply(before, step);
    StepMints(before, step);
    if k < |before.tokens| {
      TokensAreMinted(states, i - 1, k);
      assert before.tokens[k] == states[i].tokens[k];
    } else {
      assert Minted(states, i - 1, k, states[i].tokens[k]);
    }
  }

  /** Whatever ran alongside, a token was returned only by a step from a state of the run in which its own
      row was requested with the prepared identity, key and version, the session, the participant and the
      meeting were usable, and the policy derived exactly the permissions that were signed. */
  lemma TokenIsCurrent(states: seq<World>, i: nat, k: nat)
    requires IsAdmissionRun(states) && i < |states| && k < |states[i].tokens|
    ensures var p := states[i].tokens[k].prepared;
            exists j: nat :: j < i && Minted(states, j, k, states[i].tokens[k]) && Current(states[j], p)
  {
    TokensAreMinted(states, i, k);
    var token := states[i].tokens[k];
    var j: nat :| j < i && Minted(states, j, k, token);
    RunsKeepInv(states);
    assert Inv(states[i]);
    assert TokenSound(token);
    ValidExactly(token.seen, token.audit, token.prepared, token.at);
    assert Current(states[j], token.prepared);
  }

  /** In this state of the tables the prepared admission may be issued. */
  ghost predicate Current(w: World, p: Prepared) {
    && p.auditId in w.audits
    && var audit := w.audits[p.auditId];
       && Joined(w.authority, audit)
       && audit.state == Requested && SameIdentity(audit, p) && audit.expiresAt > w.now
       && var person, meeting := w.authority.people[audit.participant], w.authority.meetings[audit.meeting];
          && person.version == p.version && person.sfu == p.role && person.displayName == p.displayName
          && SessionUsable(w.authority.sessions[audit.session], w.now)
          && PersonUsable(person) && MeetingUsable(meeting, w.now)
          && Permissions(person, meeting, audit.participant in w.authority.mediaMembers) == Some(p.permissions)
  }

  /** Each reservation yields at most one token, and retained reservations are unique per session and
      command. */
  lemma OneTokenPerReservation(states: seq<World>, i: nat, k: nat, l: nat, a: nat, b: nat)
    requires IsAdmissionRun(states) && i < |states|
    ensures k < l < |states[i].tokens| ==>
              states[i].tokens[k].prepared.auditId != states[i].tokens[l].prepared.auditId
    ensures a in states[i].audits && b in states[i].audits && a != b ==>
              states[i].audits[a].session != states[i].audits[b].session
              || states[i].audits[a].command != states[i].audits[b].command
  {
    RunsKeepInv(states);
    assert Inv(states[i]);
  }

  /** requested goes to issued, sign_failed or invalidated; issued goes to invalidated; nothing else. */
  predicate Forward(before: AuditState, after: AuditState) {
    before == after || before.Requested? || (before.Issued? && after.Invalidated?)
  }

  /** Audit rows only move forward, keep their identity, and never come back once deleted. */
  ghost predicate Onward(w: World, v: World) {
    && w.used <= v.used
    && w.tokens <= v.tokens
    && (forall id <- v.audits | id in w.used ::
          && id in w.audits
          && Forward(w.audits[id].state, v.audits[id].state)
          && v.audits[id] == w.audits[id].(state := v.audits[id].state))
  }

  /** Reflexive form of `Onward`: every row of a reachable state is a drawn one. */
  ghost predicate OnwardFrom(w: World, v: World) {
    w.audits.Keys <= w.used ==> v.audits.Keys <= v.used && Onward(w, v)
  }

  lemma StepIsOnward(w: World, step: Step)
    requires Enabled(w, step) && w.audits.Keys <= w.used
    ensures OnwardFrom(w, Apply(w, step))
  {
  }

  lemma OnwardIsTransitive(w: World, v: World, u: World)
    requires OnwardFrom(w, v) && OnwardFrom(v, u)
    ensures OnwardFrom(w, u)
  {
  }

  lemma StatesMoveForward(states: seq<World>, i: nat, j: nat)
    requires IsAdmissionRun(states) && i <= j < |states|
    ensures Onward(states[i], states[j])
  {
    forall w, v | Next(w, v) ensures OnwardFrom(w, v) {
      var step :| Enabled(w, step) && v == Apply(w, step);
      if w.audits.Keys <= w.used { StepIsOnward(w, step); }
    }
    forall w, v, u | OnwardFrom(w, v) && OnwardFrom(v, u) ensures OnwardFrom(w, u) {
      OnwardIsTransitive(w, v, u);
    }
    Progress(OnwardFrom, Next, states, 0, i);
    Progress(OnwardFrom, Next, states, i, j);
  }

  /** `more` continues the run `states` by one issued token for this command, with these permissions. */
  ghost predicate Admits(states: seq<World>, more: seq<World>, command: Command, auditId: nat, permissions: seq<Permission>) {
    && states != [] && IsRun(Next, more) && states <= more
    && var w, v := states[|states| - 1], more[|more| - 1];
       && |v.tokens| == |w.tokens| + 1 && v.tokens[..|w.tokens|] == w.tokens
       && auditId in v.audits && v.audits[auditId].state == Issued
       && var p := v.tokens[|w.tokens|].prepared;
          && p.auditId == auditId && p.permissions == permissions
          && p.session == command.session && p.participant == command.participant && p.meeting == command.meeting
  }

  /** Admission works: a fresh command that is admissible now, and whose session, meeting and reservation have
      not run out when it finalizes later, gets a token with the derived permissions if nothing changes in
      between. */
  lemma UndisturbedAdmission(states: seq<World>, request: nat, command: Command, keyId: nat, ttlSeconds: nat,
                             auditId: nat, tokenId: nat, later: nat)
    requires IsAdmissionRun(states) && ttlSeconds >= 1
    requires var w := states[|states| - 1];
             && request !in w.requests && auditId !in w.used && w.now <= later < w.now + ttlSeconds * 1_000
             && Admissible(w.authority, command, w.now) && Usable(w.authority, command.session, command.participant, command.meeting, later)
             && forall id <- w.audits :: w.audits[id].session != command.session || w.audits[id].command != command.commandId
    ensures var w := states[|states| - 1];
            var permissions := Derived(w.authority, command.participant, command.meeting).value;
            exists more :: Admits(states, more, command, auditId, permissions)
  {
    var w := states[|states| - 1];
    RunsKeepInv(states);
    assert Inv(w);
    var a, c, p := SignsOnTime(w, request, command, keyId, ttlSeconds, auditId, tokenId, later);
    var b := Apply(a, SignSucceeds(request));
    FinalizesOnTime(c, request, p);
    var d := FinalizeStep(c, request);
    ExtendRun(Next, states, a);
    ExtendRun(Next, states + [a], b);
    ExtendRun(Next, states + [a] + [b], c);
    ExtendRun(Next, states + [a] + [b] + [c], d);
    assert Admits(states, states + [a] + [b] + [c] + [d], command, auditId, p.permissions);
  }

  /** Up to the finalization: reserved, signed, and some time later still issuable. */
  lemma SignsOnTime(w: World, request: nat, command: Command, keyId: nat, ttlSeconds: nat, auditId: nat, tokenId: nat, later: nat)
    returns (a: World, c: World, p: Prepared)
    requires Inv(w) && ttlSeconds >= 1
    requires request !in w.requests && auditId !in w.used && w.now <= later < w.now + ttlSeconds * 1_000
    requires Admissible(w.authority, command, w.now) && Usable(w.authority, command.session, command.participant, command.meeting, later)
    requires forall id <- w.audits :: w.audits[id].session != command.session || w.audits[id].command != command.commandId
    ensures Next(w, a) && a.tokens == w.tokens && Enabled(a, SignSucceeds(request))
    ensures var b := Apply(a, SignSucceeds(request)); Next(a, b) && Next(b, c)
    ensures c.tokens == w.tokens && c.now == later && request in c.requests && c.requests[request] == Signed(p)
    ensures Finalize(c.authority, c.audits, p, c.now).valid == Some(true)
    ensures p.auditId == auditId && Some(p.permissions) == Derived(w.authority, command.participant, command.meeting)
    ensures p.session == command.session && p.participant == command.participant && p.meeting == command.meeting
  {
    GrantsExactly(w.authority, command, keyId, ttlSeconds, auditId, tokenId, w.now);
    GrantIsBounded(w.authority, command, keyId, ttlSeconds, auditId, tokenId, w.now);
    p := Grant(w.authority, command, keyId, ttlSeconds, auditId, tokenId, w.now).value;
    var prepare := PrepareRequest(request, command, keyId, ttlSeconds, auditId, tokenId);
    a := Apply(w, prepare);
    assert a.requests[request] == Signing(p) && a.audits[auditId] == Reservation(w.authority, p, command, ttlSeconds, w.now);
    var b := Apply(a, SignSucceeds(request));
    c := Apply(b, Tick(later));
    assert Next(w, a) && Next(a, b) && Next(b, c);
    FinalizesExactly(c.authority, c.audits, p, later);
    assert Issuable(c.authority, c.audits, p, later);
  }

  lemma FinalizesOnTime(c: World, request: nat, p: Prepared)
    requires request in c.requests && c.requests[request] == Signed(p)
    requires Finalize(c.authority, c.audits, p, c.now).valid == Some(true)
    ensures Next(c, FinalizeStep(c, request))
    ensures var d := FinalizeStep(c, request);
            && p.auditId in c.audits && d.tokens == c.tokens + [Mint(c, p)]
            && p.auditId in d.audits && d.audits[p.auditId].state == Issued
  {
    assert Enabled(c, FinalizeRequest(request));
    FinalizationOutcome(c.authority, c.audits, p, c.now);
    assert [Mint(c, p)] == [Token(p, c.authority, c.audits[p.auditId], c.now)];
    assert Apply(c, FinalizeRequest(request)) == FinalizeStep(c, request);
  }

  /** No token can come from the reservation any more: it is gone, settled, or has run out. */
  ghost predicate Barred(w: World, id: nat) {
    && id in w.used
    && (id in w.audits ==> !w.audits[id].state.Requested? || w.audits[id].expiresAt <= w.now)
  }

  lemma BarredStep(w: World, step: Step, id: nat)
    requires Enabled(w, step) && Barred(w, id)
    ensures var v := Apply(w, step);
            && Barred(v, id)
            && (v.tokens == w.tokens
                || (|v.tokens| == |w.tokens| + 1 && v.tokens[..|w.tokens|] == w.tokens
                    && v.tokens[|w.tokens|].prepared.auditId != id))
  {
    if step.FinalizeRequest? { BarredFinalize(w, step.request, id); }
  }

  lemma BarredFinalize(w: World, request: nat, id: nat)
    requires request in w.requests && Barred(w, id)
    ensures var v, p := FinalizeStep(w, request), w.requests[request].prepared;
            && Barred(v, id)
            && (v.tokens == w.tokens || (p.auditId != id && p.auditId in w.audits && v.tokens == w.tokens + [Mint(w, p)]))
  {
    var p := w.requests[request].prepared;
    assert p.auditId in w.audits ==> [Mint(w, p)] == [Token(p, w.authority, w.audits[p.auditId], w.now)];
  }

  /** Once a reservation is settled or has run out, no later step returns a token for it. */
  lemma BarredForever(states: seq<World>, i: nat, j: nat, id: nat)
    requires IsAdmissionRun(states) && i <= j < |states| && Barred(states[i], id)
    ensures Barred(states[j], id)
    ensures forall k | |states[i].tokens| <= k < |states[j].tokens| :: states[j].tokens[k].prepared.auditId != id
  {
    var first := |states[i].tokens|;
    var holds := (w: World) =>
      && Barred(w, id) && first <= |w.tokens|
      && forall n | first <= n < |w.tokens| :: w.tokens[n].prepared.auditId != id;
    var part := states[i..j + 1];
    SubRun(Next, states, i, j);
    forall w, v | holds(w) && Next(w, v) ensures holds(v) {
      var step :| Enabled(w, step) && v == Apply(w, step);
      BarredStep(w, step, id);
    }
    assert holds(part[0]);
    Invariance(holds, Next, part);
    assert holds(part[j - i]) && part[j - i] == states[j];
  }

  lemma RevokeBars(w: World, session: nat, id: nat)
    requires id in w.used && id in w.audits && w.audits[id].session == session
    ensures Barred(Apply(w, RevokeSession(session)), id)
    ensures var v := Apply(w, RevokeSession(session));
            id in v.audits && (v.audits[id].state.Issued? ==> v.audits[id].expiresAt <= v.now)
  {
  }

  /** Revocation wins: once the revocation of a session is committed, no request that had a reservation
      of that session gets a token, wherever it was between prepare and finalize; and a grant issued
      before stays invalidated unless it had already run out. */
  lemma RevocationWins(states: seq<World>, i: nat, j: nat, session: nat, id: nat)
    requires IsAdmissionRun(states) && i < j < |states|
    requires states[i + 1] == Apply(states[i], RevokeSession(session))
    requires id in states[i].audits && states[i].audits[id].session == session
    ensures forall k | |states[i].tokens| <= k < |states[j].tokens| :: states[j].tokens[k].prepared.auditId != id
    ensures id in states[j].audits && states[j].audits[id].state.Issued? ==>
              states[j].audits[id].expiresAt <= states[j].now
  {
    RunsKeepInv(states);
    assert Inv(states[i]) && Inv(states[i + 1]);
    RevokeBars(states[i], session, id);
    BarredForever(states, i + 1, j, id);
    StatesMoveForward(states, i + 1, j);
    ClockRuns(states, i + 1, j);
    if id in states[j].audits && states[j].audits[id].state.Issued? { SameReservation(states[i + 1], states[j], id); }
  }

  lemma ClockRuns(states: seq<World>, i: nat, j: nat)
    requires IsRun(Next, states) && i <= j < |states|
    ensures states[i].now <= states[j].now
  {
    forall w, v | Next(w, v) ensures w.now <= v.now {
      var step :| Enabled(w, step) && v == Apply(w, step);
    }
    Progress((w: World, v: World) => w.now <= v.now, Next, states, i, j);
  }

  /** A barred reservation that is issued later was issued and had run out before. */
  lemma SameReservation(w: World, v: World, id: nat)
    requires Onward(w, v) && w.now <= v.now && Barred(w, id) && Barred(v, id)
    requires id in w.audits && (w.audits[id].state.Issued? ==> w.audits[id].expiresAt <= w.now)
    requires id in v.audits && v.audits[id].state.Issued?
    ensures v.audits[id].expiresAt <= v.now
  {
  }
}
