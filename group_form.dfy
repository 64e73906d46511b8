/** The page for creating a group or editing one the user created. */
module GroupFormPage {
  import opened Wrappers
  import opened Seqs
  import opened Text
  import Validation
  import WebConfig
  import ServerConfig
  import Models
  import GroupRoutes

  /** `newEmail.trim().toLowerCase()`. */
  function Normalize(raw: string): string {
    ToLower(Trim(raw))
  }

  /** The toast `handleAddEmail` ends with. */
  datatype AddOutcome =
    | EmailRequired
    | InvalidEmail
    | CannotInviteSelf
    | AlreadyAdded
    | MaxMembersReached
    | MemberNotFound
    | Added

  /**
   * `handleAddEmail`'s guards in order. `lookup` is the answer of the name
   * lookup for the new address (None when the request fails).
   */
  function AddOutcomeFor(newEmail: string, userEmail: string, memberEmails: seq<string>, invitedEmails: seq<string>,
                         lookup: Option<map<string, string>>): (r: AddOutcome)
    ensures Normalize(newEmail) == "" ==> r == EmailRequired
    ensures r == Added ==> lookup.Some?
  {
    var email := Normalize(newEmail);
    if email == "" then EmailRequired
    else if !Validation.ValidateEmail(email) then InvalidEmail
    else if email == userEmail then CannotInviteSelf
    else if email in memberEmails + invitedEmails then AlreadyAdded
    else if |memberEmails + invitedEmails| >= WebConfig.MAX_TOTAL_MEMBERS then MaxMembersReached
    else if lookup.None? then MemberNotFound
    else Added
  }

  /**
   * An address is added exactly when it is non-empty after normalising,
   * well-formed, not the user's own, not already listed, the group is below
   * the cap, and the lookup answered.
   */
  lemma AddedIff(newEmail: string, userEmail: string, memberEmails: seq<string>, invitedEmails: seq<string>,
                 lookup: Option<map<string, string>>)
    ensures AddOutcomeFor(newEmail, userEmail, memberEmails, invitedEmails, lookup) == Added <==>
      Normalize(newEmail) != "" && Validation.ValidateEmail(Normalize(newEmail)) && Normalize(newEmail) != userEmail
      && Normalize(newEmail) !in memberEmails + invitedEmails
      && |memberEmails| + |invitedEmails| < WebConfig.MAX_TOTAL_MEMBERS && lookup.Some?
  {
  }

  /** Adding keeps the member and invited lists free of duplicates. */
  lemma AddKeepsDistinct(newEmail: string, userEmail: string, memberEmails: seq<string>, invitedEmails: seq<string>,
                         lookup: Option<map<string, string>>)
    requires NoDuplicates(memberEmails + invitedEmails)
    requires AddOutcomeFor(newEmail, userEmail, memberEmails, invitedEmails, lookup) == Added
    ensures NoDuplicates(memberEmails + (invitedEmails + [Normalize(newEmail)]))
  {
    AddedIff(newEmail, userEmail, memberEmails, invitedEmails, lookup);
    assert memberEmails + (invitedEmails + [Normalize(newEmail)]) == (memberEmails + invitedEmails) + [Normalize(newEmail)];
  }

  /** Adding never takes the group past MAX_TOTAL_MEMBERS, and never adds the user or a blank address. */
  lemma AddKeepsCap(newEmail: string, userEmail: string, memberEmails: seq<string>, invitedEmails: seq<string>,
                    lookup: Option<map<string, string>>)
    requires AddOutcomeFor(newEmail, userEmail, memberEmails, invitedEmails, lookup) == Added
    ensures |memberEmails| + |invitedEmails| + 1 <= WebConfig.MAX_TOTAL_MEMBERS
    ensures Normalize(newEmail) != userEmail && Normalize(newEmail) != ""
  {
    AddedIff(newEmail, userEmail, memberEmails, invitedEmails, lookup);
  }

  /** The two lists after `handleRemoveMember`. */
  datatype Lists = Lists(memberEmails: seq<string>, invitedEmails: seq<string>)

  /**
   * `handleRemoveMember`: refuse the creator's address, otherwise drop the
   * address from the members if it is one, else from the invitees.
   * `creatorEmail` is None once an existing group is loaded, because the
   * group listing does not carry the creator.
   */
  function RemoveFrom(creatorEmail: Option<string>, memberEmails: seq<string>, invitedEmails: seq<string>, email: string)
    : (r: Lists)
    ensures creatorEmail == Some(email) ==> r == Lists(memberEmails, invitedEmails)
    ensures creatorEmail != Some(email) && email in memberEmails ==>
      r.invitedEmails == invitedEmails && email !in r.memberEmails
      && forall x :: x != email ==> (x in r.memberEmails <==> x in memberEmails)
    ensures creatorEmail != Some(email) && email !in memberEmails ==>
      r.memberEmails == memberEmails && email !in r.invitedEmails
      && forall x :: x != email ==> (x in r.invitedEmails <==> x in invitedEmails)
  {
    if creatorEmail == Some(email) then Lists(memberEmails, invitedEmails)
    else if email in memberEmails then Lists(RemoveEmail(memberEmails, email), invitedEmails)
    else if email in invitedEmails then Lists(memberEmails, RemoveEmail(invitedEmails, email))
    else Lists(memberEmails, invitedEmails)
  }

  /** Removing never adds anybody and never removes a known creator. */
  lemma RemoveShrinks(creatorEmail: Option<string>, memberEmails: seq<string>, invitedEmails: seq<string>, email: string)
    ensures var r := RemoveFrom(creatorEmail, memberEmails, invitedEmails, email);
      && |r.memberEmails| + |r.invitedEmails| <= |memberEmails| + |invitedEmails|
      && (creatorEmail.Some? && creatorEmail.value in memberEmails ==> creatorEmail.value in r.memberEmails)
  {
  }

  /** The request `handleSubmit` issues, or why it issues none. */
  datatype Submission =
    | NameRequired
    | NameTooLong
    | DescriptionTooLong
    | CreateCall(name: string, description: string, invitedEmails: seq<string>)
    | UpdateCall(groupId: string, name: string, description: string, memberEmails: seq<string>, invitedEmails: seq<string>)
  {
    predicate IsRequest() {
      CreateCall? || UpdateCall?
    }
  }

  /**
   * `handleSubmit`. `editGroupId` is the id of the group being edited when
   * the page is in edit mode and that group was found.
   */
  function SubmitFor(name: string, description: string, memberEmails: seq<string>, invitedEmails: seq<string>,
                     editGroupId: Option<string>): (r: Submission)
    ensures r.IsRequest() <==>
      Trim(name) != "" && JsLength(Trim(name)) <= WebConfig.NAME_LENGTH_LIMIT && JsLength(description) <= WebConfig.DESCRIPTION_LENGTH_LIMIT
    ensures r.CreateCall? <==> r.IsRequest() && editGroupId.None?
    ensures r.CreateCall? ==> r == CreateCall(Trim(name), Trim(description), invitedEmails)
    ensures r.UpdateCall? ==>
      r == UpdateCall(editGroupId.value, Trim(name), Trim(description), memberEmails, invitedEmails)
  {
    var trimmedName := Trim(name);
    if trimmedName == "" then NameRequired
    else if JsLength(trimmedName) > WebConfig.NAME_LENGTH_LIMIT then NameTooLong
    else if JsLength(description) > WebConfig.DESCRIPTION_LENGTH_LIMIT then DescriptionTooLong
    else if editGroupId.Some? then
      UpdateCall(editGroupId.value, trimmedName, Trim(description), memberEmails, invitedEmails)
    else CreateCall(trimmedName, Trim(description), invitedEmails)
  }

  /**
   * A create request from the form passes the server's name and description
   * checks; POST /group then succeeds exactly when the user's group quota and
   * the invitation cap allow it.
   */
  lemma SubmittedCreateChecks(name: string, description: string, memberEmails: seq<string>, invitedEmails: seq<string>,
                              groups: seq<Models.Group>, userEmail: string)
    requires SubmitFor(name, description, memberEmails, invitedEmails, None).CreateCall?
    ensures var c := SubmitFor(name, description, memberEmails, invitedEmails, None);
      var status := GroupRoutes.CreateStatus(groups, userEmail,
        GroupRoutes.CreateRequest(Some(c.name), Some(c.description), Models.List(c.invitedEmails)));
      status.Created? <==>
        GroupRoutes.CountCreatedBy(groups, userEmail) < ServerConfig.MAX_GROUPS_PER_USER
        && |invitedEmails| < ServerConfig.MAX_TOTAL_MEMBERS
  {
    TrimJsLength(description);
  }

  /**
   * An update request from the form, sent by the group's creator, passes
   * the server's field checks; PATCH then succeeds exactly when the lists
   * respect the cap.
   */
  lemma SubmittedUpdateChecks(name: string, description: string, memberEmails: seq<string>, invitedEmails: seq<string>,
                              groupId: string, groups: seq<Models.Group>, userEmail: string)
    requires SubmitFor(name, description, memberEmails, invitedEmails, Some(groupId)).UpdateCall?
    requires Models.FindGroup(groups, groupId).Some?
    requires groups[Models.FindGroup(groups, groupId).value].creatorEmail == userEmail
    ensures var u := SubmitFor(name, description, memberEmails, invitedEmails, Some(groupId));
      var req := GroupRoutes.UpdateRequest(Some(u.name), Some(u.description), Models.List(u.memberEmails),
        Models.List(u.invitedEmails));
      var accepted := GroupRoutes.UpdateStatus(groups, userEmail, groupId, req).Ok?;
      accepted <==> |memberEmails| + |invitedEmails| <= ServerConfig.MAX_TOTAL_MEMBERS
  {
    var u := SubmitFor(name, description, memberEmails, invitedEmails, Some(groupId));
    assert u == UpdateCall(groupId, Trim(name), Trim(description), memberEmails, invitedEmails);
    TrimJsLength(description);
    FullPatchStatus(groups, userEmail, groupId, Trim(name), Trim(description), memberEmails, invitedEmails);
  }

  /**
   * A PATCH by the creator that supplies every field within its limit is
   * judged on the cap and, when saved, on the name being non-empty.
   */
  lemma FullPatchStatus(groups: seq<Models.Group>, userEmail: string, groupId: string,
                        name: string, description: string, memberEmails: seq<string>, invitedEmails: seq<string>)
    requires Models.FindGroup(groups, groupId).Some?
    requires groups[Models.FindGroup(groups, groupId).value].creatorEmail == userEmail
    requires JsLength(name) <= ServerConfig.NAME_LENGTH_LIMIT && JsLength(description) <= ServerConfig.DESCRIPTION_LENGTH_LIMIT
    ensures var req := GroupRoutes.UpdateRequest(Some(name), Some(description), Models.List(memberEmails),
        Models.List(invitedEmails));
      GroupRoutes.UpdateStatus(groups, userEmail, groupId, req).Ok?
      <==> name != "" && |memberEmails| + |invitedEmails| <= ServerConfig.MAX_TOTAL_MEMBERS
  {
    var req := GroupRoutes.UpdateRequest(Some(name), Some(description), Models.List(memberEmails),
      Models.List(invitedEmails));
    assert GroupRoutes.Patched(groups[Models.FindGroup(groups, groupId).value], req).TotalSize()
      == |memberEmails| + |invitedEmails|;
  }

  class GroupForm {
    var name: string
    var description: string
    var creatorEmail: Option<string>
    var memberEmails: seq<string>
    var invitedEmails: seq<string>
    var newEmail: string
    var newUserNames: map<string, string>

    constructor()
      ensures name == "" && description == "" && creatorEmail == Some("")
      ensures memberEmails == [] && invitedEmails == [] && newEmail == "" && newUserNames == map[]
    {
      name := "";
      description := "";
      creatorEmail := Some("");
      memberEmails := [];
      invitedEmails := [];
      newEmail := "";
      newUserNames := map[];
    }

    /** The edit-mode effect: copy the fields of the group being edited. */
    method LoadGroup(g: GroupRoutes.GroupView)
      modifies this
      ensures name == g.name && description == g.description
      ensures memberEmails == g.memberEmails && invitedEmails == g.invitedEmails
      ensures creatorEmail == None
      ensures newEmail == old(newEmail) && newUserNames == old(newUserNames)
    {
      name := g.name;
      description := g.description;
      creatorEmail := None;
      memberEmails := g.memberEmails;
      invitedEmails := g.invitedEmails;
    }

    /** `handleAddEmail`; the other fields are outside its frame. */
    method HandleAddEmail(userEmail: string, lookup: Option<map<string, string>>) returns (outcome: AddOutcome)
      modifies this`invitedEmails, this`newEmail, this`newUserNames
      ensures outcome == AddOutcomeFor(old(newEmail), userEmail, old(memberEmails), old(invitedEmails), lookup)
      ensures outcome == Added ==>
        invitedEmails == old(invitedEmails) + [Normalize(old(newEmail))] && newEmail == ""
        && newUserNames == old(newUserNames) + lookup.value
      ensures outcome != Added ==>
        invitedEmails == old(invitedEmails) && newEmail == old(newEmail) && newUserNames == old(newUserNames)
    {
      outcome := AddOutcomeFor(newEmail, userEmail, memberEmails, invitedEmails, lookup);
      if outcome == Added {
        var email := Normalize(newEmail);
        newUserNames := newUserNames + lookup.value;
        invitedEmails := invitedEmails + [email];
        newEmail := "";
      }
    }

    /** `handleRemoveMember`. */
    method HandleRemoveMember(email: string)
      modifies this`memberEmails, this`invitedEmails
      ensures Lists(memberEmails, invitedEmails) == RemoveFrom(creatorEmail, old(memberEmails), old(invitedEmails), email)
    {
      if creatorEmail == Some(email) {
        return;
      } else if email in memberEmails {
        memberEmails := RemoveEmail(memberEmails, email);
      } else if email in invitedEmails {
        invitedEmails := RemoveEmail(invitedEmails, email);
      }
    }

    /** `handleSubmit`. */
    method HandleSubmit(editGroupId: Option<string>) returns (submission: Submission)
      ensures submission == SubmitFor(name, description, memberEmails, invitedEmails, editGroupId)
    {
      var trimmedName := Trim(name);
      if trimmedName == "" {
        return NameRequired;
      }
      if JsLength(trimmedName) > WebConfig.NAME_LENGTH_LIMIT {
        return NameTooLong;
      }
      if JsLength(description) > WebConfig.DESCRIPTION_LENGTH_LIMIT {
        return DescriptionTooLong;
      }
      if editGroupId.Some? {
        return UpdateCall(editGroupId.value, trimmedName, Trim(description), memberEmails, invitedEmails);
      }
      submission := CreateCall(trimmedName, Trim(description), invitedEmails);
    }
  }
}
