/** The role tagging the group screens show for each address of a group. */
module GroupMembers {
  import opened Seqs

  datatype Role = Creator | Member | Invited

  datatype MemberEntry = MemberEntry(email: string, role: Role)

  function EmailOf(m: MemberEntry): string {
    m.email
  }

  function MemberRole(creatorEmail: string): string -> MemberEntry {
    (e: string) => MemberEntry(e, if e == creatorEmail then Creator else Member)
  }

  function InvitedRole(e: string): MemberEntry {
    MemberEntry(e, Invited)
  }

  /** `groupMembers`: the members, tagged creator or member, then the invitees, tagged invited. */
  function GroupMembers(creatorEmail: string, memberEmails: seq<string>, invitedEmails: seq<string>)
    : (r: seq<MemberEntry>)
    ensures |r| == |memberEmails| + |invitedEmails|
    ensures forall i :: 0 <= i < |memberEmails| ==>
      r[i].email == memberEmails[i] && r[i].role != Invited
      && (r[i].role == Creator <==> memberEmails[i] == creatorEmail)
    ensures forall i :: 0 <= i < |invitedEmails| ==>
      r[|memberEmails| + i].email == invitedEmails[i] && r[|memberEmails| + i].role == Invited
  {
    var members := Map(memberEmails, MemberRole(creatorEmail));
    var invited := Map(invitedEmails, InvitedRole);
    assert forall i :: 0 <= i < |memberEmails| ==> (members + invited)[i] == members[i];
    assert forall i :: 0 <= i < |invitedEmails| ==> (members + invited)[|memberEmails| + i] == invited[i];
    members + invited
  }

  /** The addresses of the entries are the members followed by the invitees, in order. */
  lemma EmailsInOrder(creatorEmail: string, memberEmails: seq<string>, invitedEmails: seq<string>)
    ensures Map(GroupMembers(creatorEmail, memberEmails, invitedEmails), EmailOf) == memberEmails + invitedEmails
  {
  }

  /** Only the creator's address is ever tagged creator, and an invitee is tagged invited even when it is the creator. */
  lemma CreatorTag(creatorEmail: string, memberEmails: seq<string>, invitedEmails: seq<string>)
    ensures forall i :: 0 <= i < |GroupMembers(creatorEmail, memberEmails, invitedEmails)| ==>
      var isCreator := GroupMembers(creatorEmail, memberEmails, invitedEmails)[i].role == Creator;
      isCreator <==> i < |memberEmails| && memberEmails[i] == creatorEmail
  {
  }
}
