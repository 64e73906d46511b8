/** The form for writing a letter to a member of one of the caller's groups. */
module NewLetterForm {
  import opened Wrappers
  import opened Seqs
  import opened Clock
  import Text
  import Validation
  import WebTime
  import GroupRoutes
  import LetterRoutes
  import Models

  /** `(l) => l.toEmail !== profile?.email`; with no profile loaded every letter qualifies. */
  function NotAddressedTo(profileEmail: Option<string>): LetterRoutes.LetterView -> bool {
    (l: LetterRoutes.LetterView) => profileEmail.None? || l.toEmail != profileEmail.value
  }

  /** `last_written_letters`: the listed letters the user wrote (not the ones addressed to the user), in order. */
  function LastWrittenLetters(letters: seq<LetterRoutes.LetterView>, profileEmail: Option<string>)
    : (r: seq<LetterRoutes.LetterView>)
    ensures |r| <= |letters|
    ensures forall i :: 0 <= i < |r| ==> r[i] in letters && (profileEmail.Some? ==> r[i].toEmail != profileEmail.value)
    ensures forall i :: 0 <= i < |letters| && (profileEmail.None? || letters[i].toEmail != profileEmail.value) ==>
      letters[i] in r
    ensures profileEmail.None? ==> r == letters
  {
    var keep := NotAddressedTo(profileEmail);
    if profileEmail.None? then
      FilterAll(letters, keep);
      Filter(letters, keep)
    else Filter(letters, keep)
  }

  /** The order of the listing is kept: the written letters of a concatenation are concatenated. */
  lemma LastWrittenLettersAppend(a: seq<LetterRoutes.LetterView>, b: seq<LetterRoutes.LetterView>,
                                 profileEmail: Option<string>)
    ensures LastWrittenLetters(a + b, profileEmail) == LastWrittenLetters(a, profileEmail) + LastWrittenLetters(b, profileEmail)
  {
    FilterAppend(a, b, NotAddressedTo(profileEmail));
  }

  /**
   * `canSendToday`: true with at most one written letter, otherwise true
   * exactly when the second-to-last one is not from the current calendar
   * day. `fieldsOf` gives the local calendar fields of an instant.
   */
  function CanSendToday(written: seq<LetterRoutes.LetterView>, fieldsOf: int -> DateFields, now: DateFields)
    : (r: bool)
    ensures |written| <= 1 ==> r
    ensures |written| >= 2 ==> (r <==> !WebTime.IsSameDay(fieldsOf(written[|written| - 2].timestamp), now))
  {
    if |written| <= 1 then true
    else !WebTime.IsSameDay(fieldsOf(written[|written| - 2].timestamp), now)
  }

  /** `availableUsers`: the selected group's members other than the user, in order. */
  function AvailableUsers(selectedGroup: Option<GroupRoutes.GroupView>, profileEmail: Option<string>)
    : (r: seq<string>)
    ensures selectedGroup.None? ==> r == []
    ensures selectedGroup.Some? ==> |r| <= |selectedGroup.value.memberEmails|
    ensures forall i :: 0 <= i < |r| ==>
      selectedGroup.Some? && r[i] in selectedGroup.value.memberEmails && (profileEmail.Some? ==> r[i] != profileEmail.value)
    ensures selectedGroup.Some? ==>
      forall e :: e in selectedGroup.value.memberEmails && (profileEmail.None? || e != profileEmail.value) ==> e in r
    ensures selectedGroup.Some? && profileEmail.None? ==> r == selectedGroup.value.memberEmails
    ensures selectedGroup.Some? && profileEmail.Some? ==>
      r == RemoveEmail(selectedGroup.value.memberEmails, profileEmail.value)
      && multiset(r) == multiset(selectedGroup.value.memberEmails)[profileEmail.value := 0]
  {
    if selectedGroup.None? then []
    else if profileEmail.None? then selectedGroup.value.memberEmails
    else RemoveEmail(selectedGroup.value.memberEmails, profileEmail.value)
  }

  datatype GroupOption = GroupOption(caption: string, value: GroupRoutes.GroupView)

  function HasOthers(g: GroupRoutes.GroupView): bool {
    |g.memberEmails| > 1
  }

  function OptionOf(g: GroupRoutes.GroupView): GroupOption {
    GroupOption(g.name, g)
  }

  /** `groupOptions`: only groups with someone besides the user to write to, captioned (`label`) by name. */
  function GroupOptions(groups: seq<GroupRoutes.GroupView>): (r: seq<GroupOption>)
    ensures forall i :: 0 <= i < |r| ==> |r[i].value.memberEmails| > 1 && r[i].value in groups && r[i].caption == r[i].value.name
    ensures forall k :: 0 <= k < |groups| && |groups[k].memberEmails| > 1 ==> GroupOption(groups[k].name, groups[k]) in r
  {
    var kept := Filter(groups, HasOthers);
    var r := Map(kept, OptionOf);
    assert forall k :: 0 <= k < |groups| && |groups[k].memberEmails| > 1 ==> groups[k] in kept;
    assert forall g :: g in kept ==> OptionOf(g) in r;
    r
  }

  /**
   * `isFormValid` as written: the last conjunct is the function
   * `canSendToday` itself, which is always truthy, so the daily limit
   * plays no part.
   */
  function IsFormValidAsWritten(selectedGroup: Option<GroupRoutes.GroupView>, selectedUser: string, alias: string,
                                content: string, acknowledged: bool): (r: bool)
    ensures r <==>
      selectedGroup.Some? && selectedUser != "" && Validation.ValidateEmail(selectedUser)
      && Text.HasVisibleChar(alias) && Text.HasVisibleChar(content) && acknowledged
  {
    Text.TrimEmptyIff(alias);
    Text.TrimEmptyIff(content);
    selectedGroup.Some? && selectedUser != "" && Validation.ValidateEmail(selectedUser)
      && Text.Trim(alias) != "" && Text.Trim(content) != "" && acknowledged
  }

  /**
   * `isFormValid` as intended, calling `canSendToday()`: the checks as
   * written, and no written letter but the last from the current day
   * (`written` are the user's written letters, `fieldsOf` and `now` the
   * browser's calendar).
   */
  function IsFormValid(selectedGroup: Option<GroupRoutes.GroupView>, selectedUser: string, alias: string,
                       content: string, acknowledged: bool,
                       written: seq<LetterRoutes.LetterView>, fieldsOf: int -> DateFields, now: DateFields): (r: bool)
    ensures r ==> IsFormValidAsWritten(selectedGroup, selectedUser, alias, content, acknowledged)
    ensures r <==>
      selectedGroup.Some? && selectedUser != "" && Validation.ValidateEmail(selectedUser)
      && Text.HasVisibleChar(alias) && Text.HasVisibleChar(content) && acknowledged
      && (|written| >= 2 ==> !WebTime.IsSameDay(fieldsOf(written[|written| - 2].timestamp), now))
  {
    IsFormValidAsWritten(selectedGroup, selectedUser, alias, content, acknowledged)
      && CanSendToday(written, fieldsOf, now)
  }

  /**
   * GET /letter lists only letters from before the server's start of today.
   * While every instant the browser places on its current day is at or
   * after that start, no listed letter is from the browser's today, so
   * `canSendToday()` holds and calling it changes nothing.
   */
  lemma {:induction false} ListedLettersNeverBlock(letters: seq<Models.Letter>, userEmail: string, startOfToday: int,
                                                   profileEmail: Option<string>, fieldsOf: int -> DateFields,
                                                   now: DateFields)
    requires forall t :: WebTime.IsSameDay(fieldsOf(t), now) ==> t >= startOfToday
    ensures CanSendToday(LastWrittenLetters(LetterRoutes.ListLetters(letters, userEmail, startOfToday), profileEmail),
      fieldsOf, now)
  {
    var listed := LetterRoutes.ListLetters(letters, userEmail, startOfToday);
    var written := LastWrittenLetters(listed, profileEmail);
    if |written| >= 2 {
      var x := written[|written| - 2];
      assert x in listed;
      var k :| 0 <= k < |letters| && LetterRoutes.VisibleTo(userEmail, startOfToday)(letters[k])
        && x == LetterRoutes.ViewOf(letters[k]);
      assert x.timestamp < startOfToday;
    }
  }

  /**
   * The form as written accepts a letter on a day `canSendToday` rules out.
   * The state needs a browser whose calendar day began before the server's:
   * the earlier of two written letters was sent before the server's start of
   * today, so it is listed, yet the browser places it on its own today.
   */
  lemma DailyLimitIgnored()
    ensures var g := GroupRoutes.GroupView("g1", "Class", "", ["me@a.io", "you@b.io"], []);
      var written := [LetterRoutes.LetterView("g1", "you@b.io", "A", "hi", 5), LetterRoutes.LetterView("g1", "you@b.io", "A", "yo", 6)];
      var fieldsOf := (t: int) => DateFields(2025, 1, 14, 9, 0);
      var now := DateFields(2025, 1, 14, 10, 0);
      && !CanSendToday(written, fieldsOf, now)
      && IsFormValidAsWritten(Some(g), "you@b.io", "A", "hello", true)
      && !IsFormValid(Some(g), "you@b.io", "A", "hello", true, written, fieldsOf, now)
  {
    var s := "you@b.io";
    assert s[3] == '@' && s[5] == '.';
    assert Validation.AllEmailChars(s[..3]) && Validation.AllEmailChars(s[4..5]) && Validation.AllEmailChars(s[6..]);
    assert Validation.ValidateEmail(s);
    assert Text.HasVisibleChar("A") by { assert !Text.IsWhitespace("A"[0]); }
    assert Text.HasVisibleChar("hello") by { assert !Text.IsWhitespace("hello"[0]); }
  }

  /** The body of POST /letter the form sends. */
  datatype LetterPayload = LetterPayload(fromGroupId: string, toEmail: string, alias: string, content: string)

  /** A payload the form sends passes the server's required and non-blank checks on recipient, alias and content. */
  lemma PayloadShape(selectedGroup: Option<GroupRoutes.GroupView>, selectedUser: string, alias: string,
                     content: string, acknowledged: bool)
    requires IsFormValidAsWritten(selectedGroup, selectedUser, alias, content, acknowledged)
    ensures Text.Trim(content) != "" && Text.HasVisibleChar(Text.Trim(content))
    ensures Text.Trim(Text.Trim(content)) == Text.Trim(content)
    ensures Text.Trim(alias) != ""
    ensures Validation.ValidateEmail(selectedUser) && selectedUser != ""
  {
    Text.TrimEmptyIff(content);
    Text.TrimEmptyIff(alias);
    Text.TrimIdempotent(content);
    Text.TrimEmptyIff(Text.Trim(content));
  }

  class NewLetterForm {
    var selectedGroup: Option<GroupRoutes.GroupView>
    var selectedUser: string
    var alias: string
    var content: string
    var acknowledged: bool

    constructor()
      ensures selectedGroup == None && selectedUser == "" && alias == "" && content == "" && !acknowledged
    {
      selectedGroup := None;
      selectedUser := "";
      alias := "";
      content := "";
      acknowledged := false;
    }

    /** The effect on `letters`: reuse the alias of the last letter the user wrote. */
    method PrefillAlias(written: seq<LetterRoutes.LetterView>)
      modifies this
      ensures alias == if written == [] then old(alias) else written[|written| - 1].alias
      ensures selectedGroup == old(selectedGroup) && selectedUser == old(selectedUser)
      ensures content == old(content) && acknowledged == old(acknowledged)
    {
      if |written| == 0 {
        return;
      }
      alias := written[|written| - 1].alias;
    }

    /** Choosing a group; the effect on `selectedGroup` then clears the chosen recipient. */
    method SelectGroup(g: Option<GroupRoutes.GroupView>)
      modifies this
      ensures selectedGroup == g && selectedUser == ""
      ensures alias == old(alias) && content == old(content) && acknowledged == old(acknowledged)
    {
      selectedGroup := g;
      selectedUser := "";
    }

    /** `handleSubmit` as written: the payload sent, if any, gated by `isFormValid()` without the daily check. */
    method HandleSubmit() returns (payload: Option<LetterPayload>)
      ensures payload.Some? <==> IsFormValidAsWritten(selectedGroup, selectedUser, alias, content, acknowledged)
      ensures payload.Some? ==>
        payload.value == LetterPayload(selectedGroup.value.id, selectedUser, Text.Trim(alias), Text.Trim(content))
    {
      if !IsFormValidAsWritten(selectedGroup, selectedUser, alias, content, acknowledged) || selectedGroup.None? {
        return None;
      }
      payload := Some(LetterPayload(selectedGroup.value.id, selectedUser, Text.Trim(alias), Text.Trim(content)));
    }

    /** `handleSubmit` with `canSendToday()` called: nothing is sent on a day the user already wrote. */
    method HandleSubmitChecked(written: seq<LetterRoutes.LetterView>, fieldsOf: int -> DateFields, now: DateFields)
      returns (payload: Option<LetterPayload>)
      ensures payload.Some? <==>
        IsFormValid(selectedGroup, selectedUser, alias, content, acknowledged, written, fieldsOf, now)
      ensures payload.Some? ==> CanSendToday(written, fieldsOf, now)
      ensures payload.Some? ==>
        payload.value == LetterPayload(selectedGroup.value.id, selectedUser, Text.Trim(alias), Text.Trim(content))
    {
      if !IsFormValid(selectedGroup, selectedUser, alias, content, acknowledged, written, fieldsOf, now) {
        return None;
      }
      payload := Some(LetterPayload(selectedGroup.value.id, selectedUser, Text.Trim(alias), Text.Trim(content)));
    }
  }
}
