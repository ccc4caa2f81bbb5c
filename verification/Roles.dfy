/**
 Workspace administration at the gateway: logins that accept invitations, request contexts,
 invitations, role and status changes and directory events, over an in-memory store.
 */
module Roles {
  import opened Common

  type WorkspaceId = nat

  type UserId = nat

  /** A parsed address, lower-cased and split at the `@`. */
  datatype EmailAddr = EmailAddr(local: string, domain: string)

  datatype Role = Member | Admin | Owner

  datatype Status = Invited | Active | Suspended

  datatype AuthMethod = EmailCode | Password | Sso(verified: bool)

  datatype Workspace = Workspace(id: WorkspaceId, allowedDomains: seq<string>, ssoRequired: bool)

  datatype Membership = Membership(workspace: WorkspaceId, user: UserId, role: Role, status: Status)

  datatype Invitation = Invitation(
    workspace: WorkspaceId, email: EmailAddr, role: Role, expiresAt: nat, accepted: bool)

  datatype VerifiedUser = VerifiedUser(email: EmailAddr, workspace: WorkspaceId, via: AuthMethod)

  datatype Session = Session(user: UserId, workspace: WorkspaceId, role: Role, expiresAt: nat)

  datatype RequestContext = RequestContext(user: UserId, workspace: WorkspaceId, role: Role)

  datatype DenyReason = NotAMember | IsSuspended | DomainNotAllowed | SsoRequired

  datatype InviteError = EmailMismatch | AlreadyAccepted | Expired | InviteRejected(reason: DenyReason)

  datatype AdminError =
    | NoSuchWorkspace
    | Unauthorized(reason: DenyReason)
    | Invite(error: InviteError)
    | SessionInvalid
    | Forbidden
    | BadEmail
    | NotFound

  datatype AdminAction =
    | EnrollDevice | ManageMembers | ChangeRoles | ManagePolicy | ManageSso
    | ControlDevice | ViewAudit | AdministerWorkspace

  /** The order of the roles. */
  function Rank(r: Role): nat { match r case Member => 0 case Admin => 1 case Owner => 2 }

  function MinRole(a: AdminAction): Role {
    match a case EnrollDevice => Member case AdministerWorkspace => Owner case _ => Admin
  }

  predicate Can(r: Role, a: AdminAction) { Rank(r) >= Rank(MinRole(a)) }

  predicate DomainAllowed(ws: Workspace, email: EmailAddr) {
    ws.allowedDomains == [] || email.domain in ws.allowedDomains
  }

  predicate SsoMissing(ws: Workspace, via: AuthMethod) { ws.ssoRequired && via != Sso(true) }

  function AcceptInvitation(user: UserId, email: EmailAddr, via: AuthMethod, ws: Workspace, inv: Invitation, now: nat)
    : Result<Membership, InviteError>
  {
    if inv.email != email then Err(EmailMismatch)
    else if inv.accepted then Err(AlreadyAccepted)
    else if now > inv.expiresAt then Err(Expired)
    else if !DomainAllowed(ws, email) then Err(InviteRejected(DomainNotAllowed))
    else if SsoMissing(ws, via) then Err(InviteRejected(SsoRequired))
    else Ok(Membership(ws.id, user, inv.role, Active))
  }

  function AuthorizeLogin(email: EmailAddr, via: AuthMethod, ws: Workspace, m: Option<Membership>): Result<Role, DenyReason> {
    if !DomainAllowed(ws, email) then Err(DomainNotAllowed)
    else if SsoMissing(ws, via) then Err(SsoRequired)
    else if m.None? || m.value.workspace != ws.id then Err(NotAMember)
    else
      match m.value.status
      case Active => Ok(m.value.role)
      case Suspended => Err(IsSuspended)
      case Invited => Err(NotAMember)
  }

  // ----- the store -----

  datatype Directory = Directory(
    nextUser: nat,
    workspaces: map<WorkspaceId, Workspace>,
    users: map<EmailAddr, UserId>,
    emails: map<UserId, EmailAddr>,
    memberships: map<(WorkspaceId, UserId), Membership>,
    invitations: map<(WorkspaceId, EmailAddr), Invitation>)

  function WithUser(d: Directory, email: EmailAddr): (Directory, UserId) {
    if email in d.users then (d, d.users[email])
    else
      var id := d.nextUser + 1;
      (d.(nextUser := id, users := d.users[email := id], emails := d.emails[id := email]), id)
  }

  function WithMembership(d: Directory, m: Membership): Directory {
    d.(memberships := d.memberships[(m.workspace, m.user) := m])
  }

  function WithInvitation(d: Directory, inv: Invitation): Directory {
    d.(invitations := d.invitations[(inv.workspace, inv.email) := inv])
  }

  function WithAccepted(d: Directory, ws: WorkspaceId, email: EmailAddr): Directory {
    if (ws, email) in d.invitations
    then d.(invitations := d.invitations[(ws, email) := d.invitations[(ws, email)].(accepted := true)])
    else d
  }

  /** The members of a workspace with this address. */
  function Matching(d: Directory, ws: WorkspaceId, email: EmailAddr): set<UserId> {
    set k | k in d.memberships && IsMatch(d, k, ws, email) :: d.memberships[k].user
  }

  predicate IsMatch(d: Directory, k: (WorkspaceId, UserId), ws: WorkspaceId, email: EmailAddr)
    requires k in d.memberships
  {
    var m := d.memberships[k];
    m.workspace == ws && m.user in d.emails && d.emails[m.user] == email
  }

  ghost function Least(s: set<nat>): (m: nat)
    requires s != {}
    ensures m in s && forall x :: x in s ==> m <= x
  {
    var a :| a in s;
    if s == {a} then a
    else
      var m := Least(s - {a});
      assert forall x :: x in s ==> x == a || x in s - {a};
      if a < m then a else m
  }

  /** The member found for an address: the one with the least user id. */
  ghost function FindMember(d: Directory, ws: WorkspaceId, email: EmailAddr): (r: Option<UserId>)
    ensures r.None? <==> Matching(d, ws, email) == {}
    ensures r.Some? ==> r.value in Matching(d, ws, email) && forall u :: u in Matching(d, ws, email) ==> r.value <= u
  {
    if Matching(d, ws, email) == {} then None else Some(Least(Matching(d, ws, email)))
  }

  // ----- the operations, on directories -----

  function LoggedIn(d: Directory, vu: VerifiedUser, now: nat, ttl: nat): (Directory, Result<Session, AdminError>) {
    if vu.workspace !in d.workspaces then (d, Err(NoSuchWorkspace))
    else
      var ws := d.workspaces[vu.workspace];
      var (d1, user) := WithUser(d, vu.email);
      var key := (vu.workspace, user);
      if key in d1.memberships then (d1, Admitted(vu, ws, user, Some(d1.memberships[key]), now + ttl))
      else if (vu.workspace, vu.email) !in d1.invitations then (d1, Admitted(vu, ws, user, None, now + ttl))
      else
        match AcceptInvitation(user, vu.email, vu.via, ws, d1.invitations[(vu.workspace, vu.email)], now)
        case Err(e) => (d1, Err(Invite(e)))
        case Ok(m) =>
          (WithAccepted(WithMembership(d1, m), vu.workspace, vu.email), Admitted(vu, ws, user, Some(m), now + ttl))
  }

  function Admitted(vu: VerifiedUser, ws: Workspace, user: UserId, m: Option<Membership>, until: nat)
    : Result<Session, AdminError>
  {
    match AuthorizeLogin(vu.email, vu.via, ws, m)
    case Ok(role) => Ok(Session(user, vu.workspace, role, until))
    case Err(reason) => Err(Unauthorized(reason))
  }

  function Authorized(d: Directory, s: Session, now: nat): Result<RequestContext, AdminError> {
    if now > s.expiresAt then Err(SessionInvalid)
    else if (s.workspace, s.user) !in d.memberships then Err(Unauthorized(NotAMember))
    else
      var m := d.memberships[(s.workspace, s.user)];
      match m.status
      case Active => Ok(RequestContext(s.user, s.workspace, m.role))
      case Suspended => Err(Unauthorized(IsSuspended))
      case Invited => Err(Unauthorized(NotAMember))
  }

  function InvitedBy(d: Directory, ctx: RequestContext, email: Option<EmailAddr>, role: Role, expiresAt: nat)
    : (Directory, Result<Invitation, AdminError>)
  {
    if !Can(ctx.role, ManageMembers) || Rank(role) > Rank(ctx.role) then (d, Err(Forbidden))
    else if email.None? then (d, Err(BadEmail))
    else
      var inv := Invitation(ctx.workspace, email.value, role, expiresAt, false);
      (WithInvitation(d, inv), Ok(inv))
  }

  function RoleChanged(d: Directory, ctx: RequestContext, user: UserId, role: Role): (Directory, Result<(), AdminError>) {
    if !Can(ctx.role, ChangeRoles) || Rank(role) > Rank(ctx.role) then (d, Err(Forbidden))
    else if (ctx.workspace, user) !in d.memberships then (d, Err(NotFound))
    else
      var m := d.memberships[(ctx.workspace, user)];
      if Rank(m.role) > Rank(ctx.role) then (d, Err(Forbidden))
      else (WithMembership(d, m.(role := role)), Ok(()))
  }

  function StatusSet(d: Directory, ctx: RequestContext, user: UserId, status: Status): (Directory, Result<(), AdminError>) {
    if !Can(ctx.role, ManageMembers) then (d, Err(Forbidden))
    else if (ctx.workspace, user) !in d.memberships then (d, Err(NotFound))
    else
      var m := d.memberships[(ctx.workspace, user)];
      if Rank(m.role) > Rank(ctx.role) then (d, Err(Forbidden))
      else (WithMembership(d, m.(status := status)), Ok(()))
  }

  /** What a directory event does to the member it concerns. */
  ghost function DirectoryApplied(d: Directory, ws: WorkspaceId, email: EmailAddr, activates: bool): Directory {
    var found := FindMember(d, ws, email);
    var target := if activates then Active else Suspended;
    if found.None? || (ws, found.value) !in d.memberships then d
    else
      var m := d.memberships[(ws, found.value)];
      if m.status == target then d else WithMembership(d, m.(status := target))
  }

  class MemStore {
    var nextUser: nat
    var workspaces: map<WorkspaceId, Workspace>
    var users: map<EmailAddr, UserId>
    var emails: map<UserId, EmailAddr>
    var memberships: map<(WorkspaceId, UserId), Membership>
    var invitations: map<(WorkspaceId, EmailAddr), Invitation>

    function Value(): Directory
      reads this
    {
      Directory(nextUser, workspaces, users, emails, memberships, invitations)
    }

    constructor ()
      ensures Value() == Directory(0, map[], map[], map[], map[], map[])
    {
      nextUser, workspaces, users, emails, memberships, invitations := 0, map[], map[], map[], map[], map[];
    }

    method UpsertUser(email: EmailAddr) returns (id: UserId)
      modifies this
      ensures (Value(), id) == WithUser(old(Value()), email)
    {
      if email in users {
        return users[email];
      }
      nextUser := nextUser + 1;
      id := nextUser;
      users := users[email := id];
      emails := emails[id := email];
    }

    method PutMembership(m: Membership)
      modifies this
      ensures Value() == WithMembership(old(Value()), m)
    {
      memberships := memberships[(m.workspace, m.user) := m];
    }

    method PutInvitation(inv: Invitation)
      modifies this
      ensures Value() == WithInvitation(old(Value()), inv)
    {
      invitations := invitations[(inv.workspace, inv.email) := inv];
    }

    method MarkInvitationAccepted(ws: WorkspaceId, email: EmailAddr)
      modifies this
      ensures Value() == WithAccepted(old(Value()), ws, email)
    {
      if (ws, email) in invitations {
        invitations := invitations[(ws, email) := invitations[(ws, email)].(accepted := true)];
      }
    }

    /** Listing by user id and taking the first match is taking the least matching id. */
    method FirstMember(ws: WorkspaceId, email: EmailAddr) returns (best: Option<UserId>)
      ensures best == FindMember(Value(), ws, email)
    {
      best := None;
      var todo := memberships.Keys;
      while todo != {}
        invariant todo <= memberships.Keys
        invariant best.Some? ==> best.value in Matching(Value(), ws, email)
        invariant forall k :: k in memberships.Keys - todo && IsMatch(Value(), k, ws, email) ==>
                    best.Some? && best.value <= memberships[k].user
        decreases |todo|
      {
        var k :| k in todo;
        var m := memberships[k];
        if m.workspace == ws && m.user in emails && emails[m.user] == email && (best.None? || m.user < best.value) {
          best := Some(m.user);
        }
        todo := todo - {k};
      }
    }
  }

  class Gateway {
    const store: MemStore

    constructor (store: MemStore)
      ensures this.store == store
    {
      this.store := store;
    }

    method ConsoleLogin(vu: VerifiedUser, now: nat, ttl: nat) returns (r: Result<Session, AdminError>)
      modifies store
      ensures (store.Value(), r) == LoggedIn(old(store.Value()), vu, now, ttl)
    {
      if vu.workspace !in store.workspaces {
        return Err(NoSuchWorkspace);
      }
      var ws := store.workspaces[vu.workspace];
      var user := store.UpsertUser(vu.email);
      var membership: Option<Membership> := None;
      if (vu.workspace, user) in store.memberships {
        membership := Some(store.memberships[(vu.workspace, user)]);
      } else if (vu.workspace, vu.email) in store.invitations {
        var accepted := AcceptInvitation(user, vu.email, vu.via, ws, store.invitations[(vu.workspace, vu.email)], now);
        if accepted.Err? {
          return Err(Invite(accepted.error));
        }
        store.PutMembership(accepted.value);
        store.MarkInvitationAccepted(vu.workspace, vu.email);
        membership := Some(accepted.value);
      }
      r := Admitted(vu, ws, user, membership, now + ttl);
    }

    method AuthorizeRequest(s: Session, now: nat) returns (r: Result<RequestContext, AdminError>)
      ensures r == Authorized(store.Value(), s, now)
      ensures r.Ok? ==> (s.workspace, s.user) in store.memberships
                        && store.memberships[(s.workspace, s.user)].status == Active
                        && r.value.role == store.memberships[(s.workspace, s.user)].role
    {
      if now > s.expiresAt {
        return Err(SessionInvalid);
      }
      if (s.workspace, s.user) !in store.memberships {
        return Err(Unauthorized(NotAMember));
      }
      var m := store.memberships[(s.workspace, s.user)];
      match m.status {
        case Active => r := Ok(RequestContext(s.user, s.workspace, m.role));
        case Suspended => r := Err(Unauthorized(IsSuspended));
        case Invited => r := Err(Unauthorized(NotAMember));
      }
    }

    method InviteMember(ctx: RequestContext, email: Option<EmailAddr>, role: Role, expiresAt: nat)
      returns (r: Result<Invitation, AdminError>)
      modifies store
      ensures (store.Value(), r) == InvitedBy(old(store.Value()), ctx, email, role, expiresAt)
    {
      if !Can(ctx.role, ManageMembers) || Rank(role) > Rank(ctx.role) {
        return Err(Forbidden);
      }
      if email.None? {
        return Err(BadEmail);
      }
      var inv := Invitation(ctx.workspace, email.value, role, expiresAt, false);
      store.PutInvitation(inv);
      r := Ok(inv);
    }

    method ChangeRole(ctx: RequestContext, user: UserId, role: Role) returns (r: Result<(), AdminError>)
      modifies store
      ensures (store.Value(), r) == RoleChanged(old(store.Value()), ctx, user, role)
    {
      if !Can(ctx.role, ChangeRoles) || Rank(role) > Rank(ctx.role) {
        return Err(Forbidden);
      }
      if (ctx.workspace, user) !in store.memberships {
        return Err(NotFound);
      }
      var m := store.memberships[(ctx.workspace, user)];
      if Rank(m.role) > Rank(ctx.role) {
        return Err(Forbidden);
      }
      store.PutMembership(m.(role := role));
      r := Ok(());
    }

    method SetMemberStatus(ctx: RequestContext, user: UserId, status: Status) returns (r: Result<(), AdminError>)
      modifies store
      ensures (store.Value(), r) == StatusSet(old(store.Value()), ctx, user, status)
    {
      if !Can(ctx.role, ManageMembers) {
        return Err(Forbidden);
      }
      if (ctx.workspace, user) !in store.memberships {
        return Err(NotFound);
      }
      var m := store.memberships[(ctx.workspace, user)];
      if Rank(m.role) > Rank(ctx.role) {
        return Err(Forbidden);
      }
      store.PutMembership(m.(status := status));
      r := Ok(());
    }

    method ApplyDirectoryEvent(ws: WorkspaceId, email: EmailAddr, activates: bool) returns (changed: Option<UserId>)
      modifies store
      ensures store.Value() == DirectoryApplied(old(store.Value()), ws, email, activates)
      ensures var found := FindMember(old(store.Value()), ws, email);
              var target := if activates then Active else Suspended;
              changed == if found.Some? && (ws, found.value) in old(store.memberships)
                            && old(store.memberships)[(ws, found.value)].status != target
                         then found else None
    {
      var found := store.FirstMember(ws, email);
      if found.None? || (ws, found.value) !in store.memberships {
        return None;
      }
      var m := store.memberships[(ws, found.value)];
      var target := if activates then Active else Suspended;
      if m.status == target {
        return None;
      }
      store.PutMembership(m.(status := target));
      changed := found;
    }
  }

  // ----- no run raises the highest role of a workspace -----

  /** Keys and records agree, as every store operation leaves them. */
  ghost predicate WellKeyed(d: Directory) {
    && (forall k :: k in d.memberships ==> d.memberships[k].workspace == k.0 && d.memberships[k].user == k.1)
    && (forall k :: k in d.invitations ==> d.invitations[k].workspace == k.0 && d.invitations[k].email == k.1)
    && (forall w :: w in d.workspaces ==> d.workspaces[w].id == w)
  }

  // ----- what each operation does -----

  /** `u` differs from `d` in one membership only. */
  ghost predicate OnlyMembership(d: Directory, u: Directory, k: (WorkspaceId, UserId), m: Membership) {
    u == d.(memberships := u.memberships) && u.memberships.Keys == d.memberships.Keys + {k} && u.memberships[k] == m
    && forall j :: j in d.memberships && j != k ==> u.memberships[j] == d.memberships[j]
  }

  /** The member whom a context may act on: not more senior than the context, which is not a plain member's. */
  predicate MayActOn(d: Directory, ctx: RequestContext, user: UserId) {
    && ctx.role != Member && (ctx.workspace, user) in d.memberships
    && Rank(d.memberships[(ctx.workspace, user)].role) <= Rank(ctx.role)
  }

  /**
   A role is changed if and only if the caller is no plain member, the member exists, and neither the
   old nor the new role is above the caller's; then just that one role differs, otherwise nothing does.
   */
  lemma ChangeRoleMeans(d: Directory, ctx: RequestContext, user: UserId, role: Role)
    requires WellKeyed(d)
    ensures var ((u, r), k) := (RoleChanged(d, ctx, user, role), (ctx.workspace, user));
            && (r == Ok(()) <==> MayActOn(d, ctx, user) && Rank(role) <= Rank(ctx.role))
            && (r == Ok(()) ==> OnlyMembership(d, u, k, d.memberships[k].(role := role)))
            && (r != Ok(()) ==> u == d)
            && (r == Err(NotFound) <==> ctx.role != Member && Rank(role) <= Rank(ctx.role) && k !in d.memberships)
            && (r.Err? ==> r.error in {NotFound, Forbidden})
  {
  }

  /** The same for a member's status. */
  lemma SetStatusMeans(d: Directory, ctx: RequestContext, user: UserId, status: Status)
    requires WellKeyed(d)
    ensures var ((u, r), k) := (StatusSet(d, ctx, user, status), (ctx.workspace, user));
            && (r == Ok(()) <==> MayActOn(d, ctx, user))
            && (r == Ok(()) ==> OnlyMembership(d, u, k, d.memberships[k].(status := status)))
            && (r != Ok(()) ==> u == d)
            && (r == Err(NotFound) <==> ctx.role != Member && k !in d.memberships)
            && (r.Err? ==> r.error in {NotFound, Forbidden})
  {
  }

  /** An invitation is stored if and only if the caller is no plain member, offers at most the own role, and the address is one. */
  lemma InviteMeans(d: Directory, ctx: RequestContext, email: Option<EmailAddr>, role: Role, expiresAt: nat)
    ensures var (u, r) := InvitedBy(d, ctx, email, role, expiresAt);
            && (r.Ok? <==> ctx.role != Member && Rank(role) <= Rank(ctx.role) && email.Some?)
            && (r.Ok? ==>
                  var key := (ctx.workspace, email.value);
                  && r.value == Invitation(ctx.workspace, email.value, role, expiresAt, false)
                  && u == d.(invitations := u.invitations) && u.invitations.Keys == d.invitations.Keys + {key}
                  && u.invitations[key] == r.value
                  && forall j :: j in d.invitations && j != key ==> u.invitations[j] == d.invitations[j])
            && (r.Err? ==> u == d && r.error in {BadEmail, Forbidden})
            && (r == Err(BadEmail) <==> ctx.role != Member && Rank(role) <= Rank(ctx.role) && email.None?)
  {
  }

  /** A context is issued if and only if the session has not expired and its user is an active member; it has the role stored now. */
  lemma AuthorizedMeans(d: Directory, s: Session, now: nat)
    ensures var (r, k) := (Authorized(d, s, now), (s.workspace, s.user));
            var active := k in d.memberships && d.memberships[k].status == Active;
            && (r.Ok? <==> now <= s.expiresAt && active)
            && (r.Ok? ==> r.value == RequestContext(s.user, s.workspace, d.memberships[k].role))
            && (r == Err(SessionInvalid) <==> now > s.expiresAt)
            && (r == Err(Unauthorized(IsSuspended)) <==>
                  now <= s.expiresAt && k in d.memberships && d.memberships[k].status == Suspended)
            && (r.Err? ==> r.error in {SessionInvalid, Unauthorized(IsSuspended), Unauthorized(NotAMember)})
  {
  }

  /** A directory event sets the status of the found member and nothing else. */
  lemma DirectoryMeans(d: Directory, ws: WorkspaceId, email: EmailAddr, activates: bool)
    requires WellKeyed(d)
    ensures var (u, found) := (DirectoryApplied(d, ws, email, activates), FindMember(d, ws, email));
            if found.Some?
            then (ws, found.value) in d.memberships
                 && OnlyMembership(d, u, (ws, found.value),
                                   d.memberships[(ws, found.value)].(status := if activates then Active else Suspended))
            else u == d
  {
  }

  /** Domain and sign-on rules of a workspace. */
  predicate RulesMet(ws: Workspace, vu: VerifiedUser) {
    (ws.allowedDomains != [] ==> vu.email.domain in ws.allowedDomains) && (ws.ssoRequired ==> vu.via == Sso(true))
  }

  /** An invitation for this address that is still open. */
  predicate OpenInvitation(d: Directory, vu: VerifiedUser, now: nat) {
    && (vu.workspace, vu.email) in d.invitations
    && !d.invitations[(vu.workspace, vu.email)].accepted && now <= d.invitations[(vu.workspace, vu.email)].expiresAt
  }

  /** The user of an address, or the next new one. */
  function UserFor(d: Directory, email: EmailAddr): UserId { if email in d.users then d.users[email] else d.nextUser + 1 }

  /**
   A login gets a session if and only if the workspace exists and its rules are met, and the user is an
   active member, or no member yet but openly invited; a session has the role of the membership or
   of the invitation.
   */
  lemma LoginMeans(d: Directory, vu: VerifiedUser, now: nat, ttl: nat)
    requires WellKeyed(d)
    ensures var (r, user) := (LoggedIn(d, vu, now, ttl).1, UserFor(d, vu.email));
            var k := (vu.workspace, user);
            && (r.Ok? <==> vu.workspace in d.workspaces && RulesMet(d.workspaces[vu.workspace], vu)
                           && if k in d.memberships then d.memberships[k].status == Active else OpenInvitation(d, vu, now))
            && (r.Ok? ==> r.value == Session(user, vu.workspace,
                                             if k in d.memberships then d.memberships[k].role
                                             else d.invitations[(vu.workspace, vu.email)].role, now + ttl))
            && (r == Err(NoSuchWorkspace) <==> vu.workspace !in d.workspaces)
  {
  }

  /** Why the rules of a workspace turn a user away. */
  function RuleBroken(ws: Workspace, vu: VerifiedUser): DenyReason {
    if ws.allowedDomains != [] && vu.email.domain !in ws.allowedDomains then DomainNotAllowed else SsoRequired
  }

  /** Why a login is refused: by the invitation if one would be needed and is there, else by the rules, else by the membership. */
  lemma LoginRefusalMeans(d: Directory, vu: VerifiedUser, now: nat, ttl: nat)
    requires WellKeyed(d) && vu.workspace in d.workspaces && LoggedIn(d, vu, now, ttl).1.Err?
    ensures var (error, ws) := (LoggedIn(d, vu, now, ttl).1.error, d.workspaces[vu.workspace]);
            var (k, key) := ((vu.workspace, UserFor(d, vu.email)), (vu.workspace, vu.email));
            if k !in d.memberships && key in d.invitations then
              error == Invite(if d.invitations[key].accepted then AlreadyAccepted
                              else if now > d.invitations[key].expiresAt then Expired
                              else InviteRejected(RuleBroken(ws, vu)))
            else
              error == Unauthorized(if !RulesMet(ws, vu) then RuleBroken(ws, vu)
                                    else if k in d.memberships && d.memberships[k].status == Suspended then IsSuspended
                                    else NotAMember)
  {
  }

  /** What a login leaves: an accepted invitation and its membership if it used one, else both lists as they were. */
  lemma LoginLeaves(d: Directory, vu: VerifiedUser, now: nat, ttl: nat)
    requires WellKeyed(d)
    ensures var ((u, r), user, key) := (LoggedIn(d, vu, now, ttl), UserFor(d, vu.email), (vu.workspace, vu.email));
            var k := (vu.workspace, user);
            if r.Ok? && k !in d.memberships
            then && key in d.invitations
                 && u.memberships == d.memberships[k := Membership(vu.workspace, user, d.invitations[key].role, Active)]
                 && u.invitations == d.invitations[key := d.invitations[key].(accepted := true)]
            else u.memberships == d.memberships && u.invitations == d.invitations
    ensures var u := LoggedIn(d, vu, now, ttl).0;
            u.workspaces == d.workspaces && (vu.workspace in d.workspaces ==> u.users == d.users[vu.email := UserFor(d, vu.email)])
  {
    if vu.email in d.users {
      assert d.users == d.users[vu.email := d.users[vu.email]];
    }
  }

  /** Every address has its own user, and ids were given out up to the counter. */
  ghost predicate UsersOk(d: Directory) {
    && (forall e :: e in d.users ==> d.users[e] <= d.nextUser && d.users[e] in d.emails && d.emails[d.users[e]] == e)
    && (forall id :: id in d.emails ==> id <= d.nextUser)
  }

  /** Upserting finds the user of an address or adds one, and never gives two addresses the same user. */
  lemma UpsertMeans(d: Directory, email: EmailAddr)
    requires UsersOk(d)
    ensures var (u, id) := WithUser(d, email);
            && UsersOk(u) && email in u.users && u.users[email] == id == UserFor(d, email)
            && (forall e :: e in d.users ==> e in u.users && u.users[e] == d.users[e] && (e != email ==> d.users[e] != id))
            && u.memberships == d.memberships && u.invitations == d.invitations && u.workspaces == d.workspaces
  {
  }

  /** Every request context issued so far, besides the directory. */
  datatype World = World(dir: Directory, issued: set<RequestContext>)

  datatype AdminOp =
    | Login(vu: VerifiedUser, now: nat, ttl: nat)
    | Request(session: Session, at: nat)
    | InviteOp(ctx: RequestContext, email: Option<EmailAddr>, role: Role, expiresAt: nat)
    | ChangeRoleOp(ctx: RequestContext, user: UserId, role: Role)
    | SetStatusOp(ctx: RequestContext, user: UserId, status: Status)
    | DirectoryOp(ws: WorkspaceId, addr: EmailAddr, activates: bool)

  /** A context in use was issued at some earlier time; it may be stale by now. */
  predicate UsesIssued(w: World, op: AdminOp) {
    op.InviteOp? || op.ChangeRoleOp? || op.SetStatusOp? ==> op.ctx in w.issued
  }

  ghost function AdminStep(w: World, op: AdminOp): World {
    match op
    case Login(vu, now, ttl) => w.(dir := LoggedIn(w.dir, vu, now, ttl).0)
    case Request(s, now) =>
      (match Authorized(w.dir, s, now)
       case Ok(ctx) => w.(issued := w.issued + {ctx})
       case Err(_) => w)
    case InviteOp(ctx, email, role, expiresAt) => w.(dir := InvitedBy(w.dir, ctx, email, role, expiresAt).0)
    case ChangeRoleOp(ctx, user, role) => w.(dir := RoleChanged(w.dir, ctx, user, role).0)
    case SetStatusOp(ctx, user, status) => w.(dir := StatusSet(w.dir, ctx, user, status).0)
    case DirectoryOp(ws, email, activates) => w.(dir := DirectoryApplied(w.dir, ws, email, activates))
  }

  ghost function AdminAfter(w: World, ops: seq<AdminOp>): World {
    if ops == [] then w else AdminStep(AdminAfter(w, ops[..|ops| - 1]), ops[|ops| - 1])
  }

  ghost predicate HonestRun(w: World, ops: seq<AdminOp>) {
    ops != [] ==>
      var n := |ops| - 1;
      HonestRun(w, ops[..n]) && UsesIssued(AdminAfter(w, ops[..n]), ops[n])
  }

  /** Some membership or invitation of the workspace has this role. */
  ghost predicate Present(d: Directory, ws: WorkspaceId, r: Role) {
    || (exists k :: k in d.memberships && k.0 == ws && d.memberships[k].role == r)
    || (exists k :: k in d.invitations && k.0 == ws && d.invitations[k].role == r)
  }

  /** No role in the workspace, and none held by a context for it, ranks above `top`. */
  ghost predicate AtMost(w: World, ws: WorkspaceId, top: int) {
    && (forall k :: k in w.dir.memberships && k.0 == ws ==> Rank(w.dir.memberships[k].role) <= top)
    && (forall k :: k in w.dir.invitations && k.0 == ws ==> Rank(w.dir.invitations[k].role) <= top)
    && (forall c :: c in w.issued && c.workspace == ws ==> Rank(c.role) <= top)
  }

  lemma MembershipKeeps(w: World, m: Membership, ws: WorkspaceId, top: int)
    requires WellKeyed(w.dir) && AtMost(w, ws, top) && (m.workspace == ws ==> Rank(m.role) <= top)
    ensures WellKeyed(WithMembership(w.dir, m)) && AtMost(w.(dir := WithMembership(w.dir, m)), ws, top)
  {
  }

  lemma InvitationKeeps(w: World, inv: Invitation, ws: WorkspaceId, top: int)
    requires WellKeyed(w.dir) && AtMost(w, ws, top) && (inv.workspace == ws ==> Rank(inv.role) <= top)
    ensures WellKeyed(WithInvitation(w.dir, inv)) && AtMost(w.(dir := WithInvitation(w.dir, inv)), ws, top)
  {
  }

  lemma LoginKeeps(w: World, vu: VerifiedUser, now: nat, ttl: nat, ws: WorkspaceId, top: int)
    requires WellKeyed(w.dir) && AtMost(w, ws, top)
    ensures WellKeyed(LoggedIn(w.dir, vu, now, ttl).0) && AtMost(w.(dir := LoggedIn(w.dir, vu, now, ttl).0), ws, top)
  {
    if vu.workspace in w.dir.workspaces {
      var (d1, user) := WithUser(w.dir, vu.email);
      var key := (vu.workspace, vu.email);
      if (vu.workspace, user) !in d1.memberships && key in d1.invitations {
        var accepted := AcceptInvitation(user, vu.email, vu.via, w.dir.workspaces[vu.workspace], d1.invitations[key], now);
        if accepted.Ok? {
          var w1 := w.(dir := d1);
          MembershipKeeps(w1, accepted.value, ws, top);
          var w2 := w1.(dir := WithMembership(d1, accepted.value));
          InvitationKeeps(w2, w2.dir.invitations[key].(accepted := true), ws, top);
        }
      }
    }
  }

  lemma AdminStepKeeps(w: World, op: AdminOp, ws: WorkspaceId, top: int)
    requires WellKeyed(w.dir) && AtMost(w, ws, top) && UsesIssued(w, op)
    ensures WellKeyed(AdminStep(w, op).dir) && AtMost(AdminStep(w, op), ws, top)
  {
    match op {
      case Login(vu, now, ttl) =>
        LoginKeeps(w, vu, now, ttl, ws, top);
      case Request(_, _) =>
      case InviteOp(ctx, email, role, expiresAt) =>
        if InvitedBy(w.dir, ctx, email, role, expiresAt).1.Ok? {
          InvitationKeeps(w, Invitation(ctx.workspace, email.value, role, expiresAt, false), ws, top);
        }
      case ChangeRoleOp(ctx, user, role) =>
        if RoleChanged(w.dir, ctx, user, role).1.Ok? {
          MembershipKeeps(w, w.dir.memberships[(ctx.workspace, user)].(role := role), ws, top);
        }
      case SetStatusOp(ctx, user, status) =>
        if StatusSet(w.dir, ctx, user, status).1.Ok? {
          MembershipKeeps(w, w.dir.memberships[(ctx.workspace, user)].(status := status), ws, top);
        }
      case DirectoryOp(in', email, activates) =>
        var found := FindMember(w.dir, in', email);
        if found.Some? && (in', found.value) in w.dir.memberships {
          var m := w.dir.memberships[(in', found.value)];
          MembershipKeeps(w, m.(status := if activates then Active else Suspended), ws, top);
        }
    }
  }

  lemma {:induction false} RunKeepsAtMost(w: World, ops: seq<AdminOp>, ws: WorkspaceId, top: int)
    requires WellKeyed(w.dir) && AtMost(w, ws, top) && HonestRun(w, ops)
    ensures WellKeyed(AdminAfter(w, ops).dir) && AtMost(AdminAfter(w, ops), ws, top)
  {
    if ops != [] {
      var n := |ops| - 1;
      RunKeepsAtMost(w, ops[..n], ws, top);
      AdminStepKeeps(AdminAfter(w, ops[..n]), ops[n], ws, top);
    }
  }

  /** Every role in a workspace after any run is at or below one that was there at the start. */
  lemma NoRoleEscalation(d: Directory, ops: seq<AdminOp>, ws: WorkspaceId, r: Role)
    requires WellKeyed(d) && HonestRun(World(d, {}), ops)
    requires Present(AdminAfter(World(d, {}), ops).dir, ws, r)
    ensures exists r0 :: Present(d, ws, r0) && Rank(r) <= Rank(r0)
  {
    if !exists r0 :: Present(d, ws, r0) && Rank(r) <= Rank(r0) {
      var top := Rank(r) - 1;
      forall k | k in d.memberships && k.0 == ws ensures Rank(d.memberships[k].role) <= top {
        assert Present(d, ws, d.memberships[k].role);
      }
      forall k | k in d.invitations && k.0 == ws ensures Rank(d.invitations[k].role) <= top {
        assert Present(d, ws, d.invitations[k].role);
      }
      RunKeepsAtMost(World(d, {}), ops, ws, top);
      assert false;
    }
  }

  // ----- nobody acts on a more senior member -----

  /** The context an operation acts with. */
  function ContextOf(op: AdminOp): Option<RequestContext> {
    match op
    case InviteOp(ctx, _, _, _) => Some(ctx)
    case ChangeRoleOp(ctx, _, _) => Some(ctx)
    case SetStatusOp(ctx, _, _) => Some(ctx)
    case _ => None
  }

  /** An operation with a context leaves every member who ranks above it, and every other workspace, alone. */
  lemma SeniorsAreSafe(w: World, op: AdminOp, k: (WorkspaceId, UserId))
    requires WellKeyed(w.dir) && k in w.dir.memberships && ContextOf(op).Some?
    requires ContextOf(op).value.workspace == k.0 ==> Rank(w.dir.memberships[k].role) > Rank(ContextOf(op).value.role)
    ensures k in AdminStep(w, op).dir.memberships && AdminStep(w, op).dir.memberships[k] == w.dir.memberships[k]
  {
    match op {
      case ChangeRoleOp(ctx, user, role) => ChangeRoleMeans(w.dir, ctx, user, role);
      case SetStatusOp(ctx, user, status) => SetStatusMeans(w.dir, ctx, user, status);
      case _ =>
    }
  }

  /** Logins, requests and directory events change no role. */
  lemma OthersKeepRoles(w: World, op: AdminOp, k: (WorkspaceId, UserId))
    requires WellKeyed(w.dir) && k in w.dir.memberships && ContextOf(op).None?
    ensures k in AdminStep(w, op).dir.memberships && AdminStep(w, op).dir.memberships[k].role == w.dir.memberships[k].role
  {
    match op {
      case Login(vu, now, ttl) => LoginLeaves(w.dir, vu, now, ttl);
      case DirectoryOp(ws, email, activates) => DirectoryMeans(w.dir, ws, email, activates);
      case _ =>
    }
  }

  lemma StepKeepsKeys(w: World, op: AdminOp)
    requires WellKeyed(w.dir)
    ensures WellKeyed(AdminStep(w, op).dir)
  {
    match op {
      case Login(vu, now, ttl) => LoginLeaves(w.dir, vu, now, ttl);
      case _ =>
    }
  }

  /** Every context used for a workspace in these operations ranks below. */
  ghost predicate UsedBelow(ops: seq<AdminOp>, ws: WorkspaceId, rank: int) {
    forall i :: 0 <= i < |ops| && ContextOf(ops[i]).Some? && ContextOf(ops[i]).value.workspace == ws ==>
      Rank(ContextOf(ops[i]).value.role) < rank
  }

  /** Over every run whose contexts for a workspace all rank below one of its members, that member's role stays. */
  lemma {:induction false} SeniorRoleStays(w: World, ops: seq<AdminOp>, k: (WorkspaceId, UserId))
    requires WellKeyed(w.dir) && k in w.dir.memberships && UsedBelow(ops, k.0, Rank(w.dir.memberships[k].role))
    ensures WellKeyed(AdminAfter(w, ops).dir) && k in AdminAfter(w, ops).dir.memberships
    ensures AdminAfter(w, ops).dir.memberships[k].role == w.dir.memberships[k].role
  {
    if ops != [] {
      var n := |ops| - 1;
      SeniorRoleStays(w, ops[..n], k);
      var mid := AdminAfter(w, ops[..n]);
      StepKeepsKeys(mid, ops[n]);
      if ContextOf(ops[n]).Some? {
        SeniorsAreSafe(mid, ops[n], k);
      } else {
        OthersKeepRoles(mid, ops[n], k);
      }
    }
  }
}
