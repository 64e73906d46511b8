/**
 * The `/group` routes: listing the caller's groups, creating a group,
 * updating a group (creator only) and answering an invitation.
 * Each handler is a method on the store, specified by a pure function
 * giving its status and one giving the new `groups` collection.
 */
module GroupRoutes {
  import opened Wrappers
  import opened Seqs
  import opened Models
  import opened ServerConfig
  import Text

  // ---------------------------------------------------------------- GET /

  /** A group as the listing returns it: everything except the creator. */
  datatype GroupView = GroupView(
    id: string,
    name: string,
    description: string,
    memberEmails: seq<string>,
    invitedEmails: seq<string>)

  function View(g: Group): GroupView {
    GroupView(g.id, g.name, g.description, g.memberEmails, g.invitedEmails)
  }

  /** The `$or` query: the user is a member or is invited. */
  predicate Involves(g: Group, email: string) {
    email in g.memberEmails || email in g.invitedEmails
  }

  /** GET /group: the groups the caller belongs to or is invited to, in store order. */
  function ListGroups(groups: seq<Group>, userEmail: string): (r: seq<GroupView>)
    ensures |r| <= |groups|
    ensures forall k :: 0 <= k < |groups| && Involves(groups[k], userEmail) ==> View(groups[k]) in r
    ensures forall v :: v in r ==>
      exists k :: 0 <= k < |groups| && Involves(groups[k], userEmail) && View(groups[k]) == v
  {
    var mine := Filter(groups, g => Involves(g, userEmail));
    var r := Map(mine, View);
    assert forall v :: v in r ==> exists i :: 0 <= i < |mine| && v == View(mine[i]);
    r
  }

  /** The listing keeps store order: listing a concatenation concatenates the listings. */
  lemma ListGroupsAppend(a: seq<Group>, b: seq<Group>, userEmail: string)
    ensures ListGroups(a + b, userEmail) == ListGroups(a, userEmail) + ListGroups(b, userEmail)
  {
    FilterAppend(a, b, g => Involves(g, userEmail));
  }

  // ------------------------------------------------- quota and cap invariants

  /** `Group.countDocuments({ creatorEmail })`. */
  function CountCreatedBy(groups: seq<Group>, email: string): nat {
    if groups == [] then 0
    else
      var last := if groups[|groups| - 1].creatorEmail == email then 1 else 0;
      CountCreatedBy(groups[..|groups| - 1], email) + last
  }

  lemma CountCreatedByAppend(groups: seq<Group>, g: Group, email: string)
    ensures CountCreatedBy(groups + [g], email)
      == CountCreatedBy(groups, email) + (if g.creatorEmail == email then 1 else 0)
  {
    assert (groups + [g])[..|groups|] == groups;
  }

  /** Two collections whose groups have, position by position, the same creators. */
  predicate SameCreators(a: seq<Group>, b: seq<Group>) {
    |a| == |b| && forall k :: 0 <= k < |a| ==> a[k].creatorEmail == b[k].creatorEmail
  }

  lemma {:induction false} SameCreatorsCount(a: seq<Group>, b: seq<Group>, email: string)
    requires SameCreators(a, b)
    ensures CountCreatedBy(a, email) == CountCreatedBy(b, email)
  {
    if a != [] {
      SameCreatorsCount(a[..|a| - 1], b[..|b| - 1], email);
    }
  }

  /** Nobody has created more than MAX_GROUPS_PER_USER groups. */
  ghost predicate QuotaHolds(groups: seq<Group>) {
    forall email :: CountCreatedBy(groups, email) <= MAX_GROUPS_PER_USER
  }

  /** No group has more than MAX_TOTAL_MEMBERS members and invitees. */
  predicate CapHolds(groups: seq<Group>) {
    forall k :: 0 <= k < |groups| ==> groups[k].TotalSize() <= MAX_TOTAL_MEMBERS
  }

  // ----------------------------------------------------------------- POST /

  datatype CreateRequest = CreateRequest(
    name: Option<string>,
    description: Option<string>,
    invitedEmails: ListField)

  /** The response of POST /group, checks in the handler's order. */
  function CreateStatus(groups: seq<Group>, userEmail: string, req: CreateRequest): (r: Status)
    ensures r.Created? || r.BadRequest?
    ensures r.Created? <==>
      Truthy(req.name) && Text.JsLength(req.name.value) <= NAME_LENGTH_LIMIT
      && (Truthy(req.description) ==> Text.JsLength(req.description.value) <= DESCRIPTION_LENGTH_LIMIT)
      && CountCreatedBy(groups, userEmail) < MAX_GROUPS_PER_USER
      && |ArrayOrEmpty(req.invitedEmails)| < MAX_TOTAL_MEMBERS
    ensures !Truthy(req.name) ==> r == BadRequest("Group name is required")
  {
    if !Truthy(req.name) then BadRequest("Group name is required")
    else if Text.JsLength(req.name.value) > NAME_LENGTH_LIMIT then BadRequest("Group name is too long")
    else if Truthy(req.description) && Text.JsLength(req.description.value) > DESCRIPTION_LENGTH_LIMIT then
      BadRequest("Description is too long")
    else if CountCreatedBy(groups, userEmail) >= MAX_GROUPS_PER_USER then
      BadRequest("You can only create up to " + Text.IntToString(MAX_GROUPS_PER_USER) + " groups")
    else if |ArrayOrEmpty(req.invitedEmails)| > MAX_TOTAL_MEMBERS - 1 then
      BadRequest("You can only invite up to " + Text.IntToString(MAX_TOTAL_MEMBERS - 1) + " members")
    else Created("Group created successfully")
  }

  /** The document `Group.create` inserts: the creator is its only member. */
  function NewGroup(id: string, userEmail: string, req: CreateRequest): Group
    requires req.name.Some?
  {
    Group(id, req.name.value, req.description.GetOr(""), userEmail, [userEmail],
      ArrayOrEmpty(req.invitedEmails))
  }

  /** The `groups` collection after POST /group. */
  function AfterCreate(groups: seq<Group>, userEmail: string, req: CreateRequest, newId: string): seq<Group> {
    if CreateStatus(groups, userEmail, req).Created? then groups + [NewGroup(newId, userEmail, req)]
    else groups
  }

  /** A created group has its creator as sole member and respects the limits. */
  lemma CreatedGroupShape(groups: seq<Group>, userEmail: string, req: CreateRequest, newId: string)
    requires CreateStatus(groups, userEmail, req).Created?
    ensures NewGroup(newId, userEmail, req).memberEmails == [userEmail]
    ensures NewGroup(newId, userEmail, req).creatorEmail == userEmail
    ensures NewGroup(newId, userEmail, req).name != "" && Text.JsLength(NewGroup(newId, userEmail, req).name) <= NAME_LENGTH_LIMIT
    ensures Text.JsLength(NewGroup(newId, userEmail, req).description) <= DESCRIPTION_LENGTH_LIMIT
    ensures NewGroup(newId, userEmail, req).TotalSize() <= MAX_TOTAL_MEMBERS
  {
  }

  /** Creating a group never takes its creator past the quota, and leaves everyone else's count alone. */
  lemma CreateCounts(groups: seq<Group>, userEmail: string, req: CreateRequest, newId: string, email: string)
    ensures CountCreatedBy(AfterCreate(groups, userEmail, req, newId), email)
      == CountCreatedBy(groups, email)
        + (if email == userEmail && CreateStatus(groups, userEmail, req).Created? then 1 else 0)
    ensures email == userEmail ==>
      CountCreatedBy(AfterCreate(groups, userEmail, req, newId), email)
        <= if CountCreatedBy(groups, email) < MAX_GROUPS_PER_USER then MAX_GROUPS_PER_USER
           else CountCreatedBy(groups, email)
  {
    if CreateStatus(groups, userEmail, req).Created? {
      CountCreatedByAppend(groups, NewGroup(newId, userEmail, req), email);
    }
  }

  lemma CreatePreservesInvariants(groups: seq<Group>, userEmail: string, req: CreateRequest, newId: string)
    requires QuotaHolds(groups) && CapHolds(groups) && NamedGroups(groups)
    ensures QuotaHolds(AfterCreate(groups, userEmail, req, newId))
    ensures CapHolds(AfterCreate(groups, userEmail, req, newId))
    ensures NamedGroups(AfterCreate(groups, userEmail, req, newId))
  {
    forall email {
      CreateCounts(groups, userEmail, req, newId, email);
    }
  }

  /** POST /group. */
  method CreateGroup(db: Store, userEmail: string, req: CreateRequest, newId: string)
    returns (status: Status, id: Option<string>)
    requires db.Valid()
    requires forall k :: 0 <= k < |db.groups| ==> db.groups[k].id != newId
    modifies db`groups
    ensures db.Valid()
    ensures status == CreateStatus(old(db.groups), userEmail, req)
    ensures db.groups == AfterCreate(old(db.groups), userEmail, req, newId)
    ensures id == if status.Created? then Some(newId) else None
  {
    id := None;
    if !Truthy(req.name) {
      return BadRequest("Group name is required"), id;
    }
    if Text.JsLength(req.name.value) > NAME_LENGTH_LIMIT {
      return BadRequest("Group name is too long"), id;
    }
    if Truthy(req.description) && Text.JsLength(req.description.value) > DESCRIPTION_LENGTH_LIMIT {
      return BadRequest("Description is too long"), id;
    }
    var userGroupCount := CountCreatedBy(db.groups, userEmail);
    if userGroupCount >= MAX_GROUPS_PER_USER {
      return BadRequest("You can only create up to " + Text.IntToString(MAX_GROUPS_PER_USER) + " groups"), id;
    }
    var invitedEmailsArray := ArrayOrEmpty(req.invitedEmails);
    if |invitedEmailsArray| > MAX_TOTAL_MEMBERS - 1 {
      return BadRequest("You can only invite up to " + Text.IntToString(MAX_TOTAL_MEMBERS - 1) + " members"), id;
    }
    var group := Group(newId, req.name.value, req.description.GetOr(""), userEmail, [userEmail], invitedEmailsArray);
    db.groups := db.groups + [group];
    status, id := Created("Group created successfully"), Some(newId);
  }

  // ------------------------------------------------------- PATCH /:groupId

  datatype UpdateRequest = UpdateRequest(
    name: Option<string>,
    description: Option<string>,
    memberEmails: ListField,
    invitedEmails: ListField)

  /** A supplied list field replaces the stored list; one that is not an array replaces it with []. */
  function ReplaceList(stored: seq<string>, f: ListField): seq<string> {
    if f.Undefined? then stored else ArrayOrEmpty(f)
  }

  /** The group with every supplied field replaced. */
  function Patched(g: Group, req: UpdateRequest): Group {
    g.(name := req.name.GetOr(g.name),
       description := req.description.GetOr(g.description),
       memberEmails := ReplaceList(g.memberEmails, req.memberEmails),
       invitedEmails := ReplaceList(g.invitedEmails, req.invitedEmails))
  }

  /** The response of PATCH /group/:groupId, checks in the handler's order. */
  function UpdateStatus(groups: seq<Group>, userEmail: string, groupId: string, req: UpdateRequest): (r: Status)
    ensures r.NotFound? <==> FindGroup(groups, groupId).None?
    ensures r.Forbidden? <==>
      FindGroup(groups, groupId).Some? && groups[FindGroup(groups, groupId).value].creatorEmail != userEmail
    ensures r.Ok? <==>
      FindGroup(groups, groupId).Some?
      && groups[FindGroup(groups, groupId).value].creatorEmail == userEmail
      && (req.name.Some? ==> Text.JsLength(req.name.value) <= NAME_LENGTH_LIMIT)
      && (req.description.Some? ==> Text.JsLength(req.description.value) <= DESCRIPTION_LENGTH_LIMIT)
      && Patched(groups[FindGroup(groups, groupId).value], req).TotalSize() <= MAX_TOTAL_MEMBERS
      && (if req.name.Some? then req.name.value else groups[FindGroup(groups, groupId).value].name) != ""
    ensures r.InternalError? <==>
      FindGroup(groups, groupId).Some?
      && groups[FindGroup(groups, groupId).value].creatorEmail == userEmail
      && (req.name.Some? ==> Text.JsLength(req.name.value) <= NAME_LENGTH_LIMIT)
      && (req.description.Some? ==> Text.JsLength(req.description.value) <= DESCRIPTION_LENGTH_LIMIT)
      && Patched(groups[FindGroup(groups, groupId).value], req).TotalSize() <= MAX_TOTAL_MEMBERS
      && (if req.name.Some? then req.name.value else groups[FindGroup(groups, groupId).value].name) == ""
    ensures r.InternalError? ==> r == InternalError("Internal server error")
    ensures r.Ok? || r.NotFound? || r.Forbidden? || r.BadRequest? || r.InternalError?
  {
    match FindGroup(groups, groupId)
    case None => NotFound("Group not found")
    case Some(i) =>
      var g := groups[i];
      if g.creatorEmail != userEmail then Forbidden("Only the group creator can update this group")
      else if req.name.Some? && Text.JsLength(req.name.value) > NAME_LENGTH_LIMIT then BadRequest("Group name is too long")
      else if req.description.Some? && Text.JsLength(req.description.value) > DESCRIPTION_LENGTH_LIMIT then
        BadRequest("Description is too long")
      else if Patched(g, req).TotalSize() > MAX_TOTAL_MEMBERS then
        BadRequest("Total members and invited members cannot exceed " + Text.IntToString(MAX_TOTAL_MEMBERS))
      // `group.save()` throws on the `required` name and the handler answers 500
      else if !Patched(g, req).Saveable() then InternalError("Internal server error")
      else Ok("Group updated successfully")
  }

  /** The `groups` collection after PATCH /group/:groupId. */
  function AfterUpdate(groups: seq<Group>, userEmail: string, groupId: string, req: UpdateRequest): seq<Group> {
    if UpdateStatus(groups, userEmail, groupId, req).Ok? then
      var i := FindGroup(groups, groupId).value;
      groups[i := Patched(groups[i], req)]
    else groups
  }

  /** An update changes only the addressed group, keeps its id and creator, and respects the cap. */
  lemma UpdateEffect(groups: seq<Group>, userEmail: string, groupId: string, req: UpdateRequest)
    ensures |AfterUpdate(groups, userEmail, groupId, req)| == |groups|
    ensures SameCreators(groups, AfterUpdate(groups, userEmail, groupId, req))
    ensures forall k :: 0 <= k < |groups| ==>
      AfterUpdate(groups, userEmail, groupId, req)[k].id == groups[k].id
    ensures forall k :: 0 <= k < |groups| && groups[k].id != groupId ==>
      AfterUpdate(groups, userEmail, groupId, req)[k] == groups[k]
    ensures forall k :: 0 <= k < |groups| && groups[k].creatorEmail != userEmail ==>
      AfterUpdate(groups, userEmail, groupId, req)[k] == groups[k]
    ensures UpdateStatus(groups, userEmail, groupId, req).Ok? ==>
      AfterUpdate(groups, userEmail, groupId, req)[FindGroup(groups, groupId).value].TotalSize()
        <= MAX_TOTAL_MEMBERS
    ensures UpdateStatus(groups, userEmail, groupId, req).Ok? ==>
      AfterUpdate(groups, userEmail, groupId, req)[FindGroup(groups, groupId).value]
        == Patched(groups[FindGroup(groups, groupId).value], req)
    ensures UpdateStatus(groups, userEmail, groupId, req).Ok? ==>
      AfterUpdate(groups, userEmail, groupId, req)[FindGroup(groups, groupId).value].Saveable()
    ensures !UpdateStatus(groups, userEmail, groupId, req).Ok? ==> AfterUpdate(groups, userEmail, groupId, req) == groups
  {
  }

  lemma UpdatePreservesInvariants(groups: seq<Group>, userEmail: string, groupId: string, req: UpdateRequest)
    requires QuotaHolds(groups) && CapHolds(groups) && UniqueGroupIds(groups) && NamedGroups(groups)
    ensures QuotaHolds(AfterUpdate(groups, userEmail, groupId, req))
    ensures CapHolds(AfterUpdate(groups, userEmail, groupId, req))
    ensures UniqueGroupIds(AfterUpdate(groups, userEmail, groupId, req))
    ensures NamedGroups(AfterUpdate(groups, userEmail, groupId, req))
  {
    UpdateEffect(groups, userEmail, groupId, req);
    forall email {
      SameCreatorsCount(groups, AfterUpdate(groups, userEmail, groupId, req), email);
    }
  }

  /**
   * The field-by-field part of PATCH: the first supplied text field over its
   * limit is refused, otherwise the supplied fields replace the stored ones.
   */
  method PatchFields(g: Group, req: UpdateRequest) returns (error: Option<Status>, group: Group)
    ensures error.None? <==>
      (req.name.Some? ==> Text.JsLength(req.name.value) <= NAME_LENGTH_LIMIT)
      && (req.description.Some? ==> Text.JsLength(req.description.value) <= DESCRIPTION_LENGTH_LIMIT)
    ensures req.name.Some? && Text.JsLength(req.name.value) > NAME_LENGTH_LIMIT ==>
      error == Some(BadRequest("Group name is too long"))
    ensures ((req.name.Some? ==> Text.JsLength(req.name.value) <= NAME_LENGTH_LIMIT)
             && req.description.Some? && Text.JsLength(req.description.value) > DESCRIPTION_LENGTH_LIMIT) ==>
      error == Some(BadRequest("Description is too long"))
    ensures error.None? ==> group == Patched(g, req)
  {
    group := g;
    if req.name.Some? {
      if Text.JsLength(req.name.value) > NAME_LENGTH_LIMIT {
        return Some(BadRequest("Group name is too long")), group;
      }
      group := group.(name := req.name.value);
    }
    if req.description.Some? {
      if Text.JsLength(req.description.value) > DESCRIPTION_LENGTH_LIMIT {
        return Some(BadRequest("Description is too long")), group;
      }
      group := group.(description := req.description.value);
    }
    if !req.memberEmails.Undefined? {
      group := group.(memberEmails := ArrayOrEmpty(req.memberEmails));
    }
    if !req.invitedEmails.Undefined? {
      group := group.(invitedEmails := ArrayOrEmpty(req.invitedEmails));
    }
    error := None;
  }

  /** PATCH /group/:groupId. */
  method UpdateGroup(db: Store, userEmail: string, groupId: string, req: UpdateRequest)
    returns (status: Status)
    requires db.Valid()
    modifies db`groups
    ensures db.Valid()
    ensures status == UpdateStatus(old(db.groups), userEmail, groupId, req)
    ensures db.groups == AfterUpdate(old(db.groups), userEmail, groupId, req)
  {
    var found := FindGroup(db.groups, groupId);
    if found.None? {
      return NotFound("Group not found");
    }
    var i := found.value;
    if db.groups[i].creatorEmail != userEmail {
      return Forbidden("Only the group creator can update this group");
    }
    var error, group := PatchFields(db.groups[i], req);
    if error.Some? {
      return error.value;
    }
    var totalCount := |group.memberEmails| + |group.invitedEmails|;
    if totalCount > MAX_TOTAL_MEMBERS {
      return BadRequest("Total members and invited members cannot exceed " + Text.IntToString(MAX_TOTAL_MEMBERS));
    }
    if group.name == "" {
      return InternalError("Internal server error");
    }
    ghost var before := db.groups;
    UpdateEffect(before, userEmail, groupId, req);
    db.groups := db.groups[i := group];
    status := Ok("Group updated successfully");
    assert db.groups == AfterUpdate(before, userEmail, groupId, req);
  }

  // ------------------------------------------------------ POST /invitation

  datatype InvitationRequest = InvitationRequest(id: Option<string>, isAccept: Option<bool>)

  /** Accepting: leave the invited list, join the members unless already there. */
  function Accept(g: Group, userEmail: string): Group {
    g.(invitedEmails := RemoveEmail(g.invitedEmails, userEmail),
       memberEmails := if userEmail in g.memberEmails then g.memberEmails else g.memberEmails + [userEmail])
  }

  /** Declining: leave the invited list. */
  function Decline(g: Group, userEmail: string): Group {
    g.(invitedEmails := RemoveEmail(g.invitedEmails, userEmail))
  }

  /** The response of POST /group/invitation, checks in the handler's order. */
  function InvitationStatus(groups: seq<Group>, userEmail: string, req: InvitationRequest): (r: Status)
    ensures r.Ok? <==>
      Truthy(req.id) && req.isAccept.Some? && FindGroup(groups, req.id.value).Some?
      && userEmail in groups[FindGroup(groups, req.id.value).value].invitedEmails
      && groups[FindGroup(groups, req.id.value).value].Saveable()
    ensures r.NotFound? <==> Truthy(req.id) && req.isAccept.Some? && FindGroup(groups, req.id.value).None?
    ensures r.Forbidden? <==>
      Truthy(req.id) && req.isAccept.Some? && FindGroup(groups, req.id.value).Some?
      && userEmail !in groups[FindGroup(groups, req.id.value).value].invitedEmails
    ensures NamedGroups(groups) ==> !r.InternalError?
    ensures !Truthy(req.id) ==> r == BadRequest("Group ID is required")
    ensures Truthy(req.id) && req.isAccept.None? ==> r == BadRequest("isAccept is required")
    ensures r.BadRequest? <==> !Truthy(req.id) || req.isAccept.None?
    ensures r.Ok? ==> r.message == if req.isAccept.value then "Invitation accepted" else "Invitation declined"
    ensures r.Ok? || r.NotFound? || r.Forbidden? || r.BadRequest? || r.InternalError?
  {
    if !Truthy(req.id) then BadRequest("Group ID is required")
    else if req.isAccept.None? then BadRequest("isAccept is required")
    else
      match FindGroup(groups, req.id.value)
      case None => NotFound("Group not found")
      case Some(i) =>
        if userEmail !in groups[i].invitedEmails then Forbidden("You are not invited to this group")
        // answering keeps the name, so `group.save()` fails only on a group stored without one
        else if !groups[i].Saveable() then InternalError("Internal server error")
        else if req.isAccept.value then Ok("Invitation accepted")
        else Ok("Invitation declined")
  }

  /** The `groups` collection after POST /group/invitation. */
  function AfterInvitation(groups: seq<Group>, userEmail: string, req: InvitationRequest): seq<Group> {
    if InvitationStatus(groups, userEmail, req).Ok? then
      var i := FindGroup(groups, req.id.value).value;
      groups[i := if req.isAccept.value then Accept(groups[i], userEmail) else Decline(groups[i], userEmail)]
    else groups
  }

  /** Accepting moves exactly the caller from the invitees to the members and never grows the group. */
  lemma AcceptMovesCaller(g: Group, userEmail: string)
    requires userEmail in g.invitedEmails
    ensures userEmail in Accept(g, userEmail).memberEmails
    ensures userEmail !in Accept(g, userEmail).invitedEmails
    ensures forall x :: x != userEmail ==>
      (x in Accept(g, userEmail).memberEmails <==> x in g.memberEmails)
      && (x in Accept(g, userEmail).invitedEmails <==> x in g.invitedEmails)
    ensures Accept(g, userEmail).TotalSize() <= g.TotalSize()
    ensures Accept(g, userEmail).id == g.id && Accept(g, userEmail).creatorEmail == g.creatorEmail
  {
  }

  /** Accepting keeps the member list free of duplicates. */
  lemma AcceptKeepsMembersDistinct(g: Group, userEmail: string)
    requires NoDuplicates(g.memberEmails)
    ensures NoDuplicates(Accept(g, userEmail).memberEmails)
  {
  }

  /** Declining removes the caller's invitation and touches nothing else. */
  lemma DeclineRemovesCaller(g: Group, userEmail: string)
    requires userEmail in g.invitedEmails
    ensures userEmail !in Decline(g, userEmail).invitedEmails
    ensures Decline(g, userEmail).memberEmails == g.memberEmails
    ensures forall x :: x != userEmail ==> (x in Decline(g, userEmail).invitedEmails <==> x in g.invitedEmails)
    ensures Decline(g, userEmail).TotalSize() < g.TotalSize()
  {
  }

  /** Answering never changes who created what and never breaks the cap or the id uniqueness. */
  lemma InvitationPreservesInvariants(groups: seq<Group>, userEmail: string, req: InvitationRequest)
    requires QuotaHolds(groups) && CapHolds(groups) && UniqueGroupIds(groups) && NamedGroups(groups)
    ensures QuotaHolds(AfterInvitation(groups, userEmail, req))
    ensures CapHolds(AfterInvitation(groups, userEmail, req))
    ensures UniqueGroupIds(AfterInvitation(groups, userEmail, req))
    ensures NamedGroups(AfterInvitation(groups, userEmail, req))
  {
    var after := AfterInvitation(groups, userEmail, req);
    if InvitationStatus(groups, userEmail, req).Ok? {
      var i := FindGroup(groups, req.id.value).value;
      AcceptMovesCaller(groups[i], userEmail);
      DeclineRemovesCaller(groups[i], userEmail);
      assert SameCreators(groups, after);
    }
    forall email {
      SameCreatorsCount(groups, after, email);
    }
  }

  /** POST /group/invitation. */
  method RespondToInvitation(db: Store, userEmail: string, req: InvitationRequest)
    returns (status: Status)
    requires db.Valid()
    modifies db`groups
    ensures db.Valid()
    ensures status == InvitationStatus(old(db.groups), userEmail, req)
    ensures db.groups == AfterInvitation(old(db.groups), userEmail, req)
  {
    if !Truthy(req.id) {
      return BadRequest("Group ID is required");
    }
    if req.isAccept.None? {
      return BadRequest("isAccept is required");
    }
    var found := FindGroup(db.groups, req.id.value);
    if found.None? {
      return NotFound("Group not found");
    }
    var i := found.value;
    var group := db.groups[i];
    if userEmail !in group.invitedEmails {
      return Forbidden("You are not invited to this group");
    }
    if group.name == "" {
      return InternalError("Internal server error");
    }
    group := group.(invitedEmails := RemoveEmail(group.invitedEmails, userEmail));
    if req.isAccept.value {
      if userEmail !in group.memberEmails {
        group := group.(memberEmails := group.memberEmails + [userEmail]);
      }
      db.groups := db.groups[i := group];
      status := Ok("Invitation accepted");
    } else {
      db.groups := db.groups[i := group];
      status := Ok("Invitation declined");
    }
  }
}
