/**
 * The `/letter` routes: listing the letters the caller sent or received
 * before today, and sending one letter a day to a member of a shared group.
 */
module LetterRoutes {
  import opened Wrappers
  import opened Seqs
  import opened Models
  import opened ServerConfig
  import opened Clock
  import Text

  // ------------------------------------------------------------------ GET /

  /** A letter as the listing returns it: without the sender's address. */
  datatype LetterView = LetterView(fromGroupId: string, toEmail: string, alias: string, content: string, timestamp: int)

  function ViewOf(l: Letter): LetterView {
    LetterView(l.fromGroupId, l.toEmail, l.alias, l.content, l.timestamp)
  }

  /** The query: the user is sender or recipient, and the letter is from before today. */
  function VisibleTo(userEmail: string, startOfToday: int): Letter -> bool {
    (l: Letter) => (l.fromEmail == userEmail || l.toEmail == userEmail) && l.timestamp < startOfToday
  }

  /** GET /letter, in store order. */
  function ListLetters(letters: seq<Letter>, userEmail: string, startOfToday: int): (r: seq<LetterView>)
    ensures |r| <= |letters|
    ensures forall k :: 0 <= k < |letters| && VisibleTo(userEmail, startOfToday)(letters[k]) ==>
      ViewOf(letters[k]) in r
    ensures forall v :: v in r ==>
      exists k :: 0 <= k < |letters| && VisibleTo(userEmail, startOfToday)(letters[k]) && v == ViewOf(letters[k])
  {
    var mine := Filter(letters, VisibleTo(userEmail, startOfToday));
    var r := Map(mine, ViewOf);
    assert forall v :: v in r ==> exists i :: 0 <= i < |mine| && v == ViewOf(mine[i]);
    r
  }

  /** Appending a letter appends its view exactly when it is visible. */
  lemma ListLettersAppend(letters: seq<Letter>, l: Letter, userEmail: string, startOfToday: int)
    ensures ListLetters(letters + [l], userEmail, startOfToday)
      == ListLetters(letters, userEmail, startOfToday)
        + (if VisibleTo(userEmail, startOfToday)(l) then [ViewOf(l)] else [])
  {
    var p := VisibleTo(userEmail, startOfToday);
    FilterAppend(letters, [l], p);
    assert Filter([l], p) == if p(l) then [l] else [];
    MapAppend(Filter(letters, p), Filter([l], p), ViewOf);
  }

  // ----------------------------------------------------------------- POST /

  datatype LetterRequest = LetterRequest(
    fromGroupId: Option<string>,
    toEmail: Option<string>,
    alias: Option<string>,
    content: Option<string>)

  /** `timestamp` within [today, tomorrow). */
  function SentToday(fromEmail: string, today: Today): Letter -> bool {
    (l: Letter) => l.fromEmail == fromEmail && today.startOfToday <= l.timestamp < StartOfTomorrow(today)
  }

  /** `Letter.countDocuments({ fromEmail, timestamp: { $gte: today, $lt: tomorrow } })`. */
  function CountSentToday(letters: seq<Letter>, fromEmail: string, today: Today): nat {
    |Filter(letters, SentToday(fromEmail, today))|
  }

  /** The body passes the field checks: group and recipient given, content non-blank and trimmed within the limit. */
  predicate FieldsPresent(req: LetterRequest) {
    Truthy(req.fromGroupId) && Truthy(req.toEmail) && req.content.Some?
    && Text.HasVisibleChar(req.content.value) && Text.JsLength(Text.Trim(req.content.value)) <= LETTER_LENGTH_LIMIT
  }

  /** The 400 answers of POST /letter, the first failing field check in the handler's order. */
  function FieldError(req: LetterRequest): (r: Option<Status>)
    ensures r.None? <==> FieldsPresent(req)
    ensures r.Some? ==> r.value.BadRequest?
    ensures !Truthy(req.fromGroupId) ==> r == Some(BadRequest("fromGroupId is required"))
    ensures Truthy(req.fromGroupId) && !Truthy(req.toEmail) ==> r == Some(BadRequest("toEmail is required"))
    ensures Truthy(req.fromGroupId) && Truthy(req.toEmail) && !Truthy(req.content) ==>
      r == Some(BadRequest("content is required"))
    ensures (Truthy(req.fromGroupId) && Truthy(req.toEmail) && Truthy(req.content)
             && Text.JsLength(Text.Trim(req.content.value)) > LETTER_LENGTH_LIMIT) ==>
      r == Some(BadRequest("Content is too long"))
    ensures (Truthy(req.fromGroupId) && Truthy(req.toEmail) && Truthy(req.content)
             && Text.JsLength(Text.Trim(req.content.value)) <= LETTER_LENGTH_LIMIT
             && !Text.HasVisibleChar(req.content.value)) ==>
      r == Some(BadRequest("Content cannot be empty"))
  {
    Text.TrimEmptyIff(req.content.GetOr(""));
    if !Truthy(req.fromGroupId) then Some(BadRequest("fromGroupId is required"))
    else if !Truthy(req.toEmail) then Some(BadRequest("toEmail is required"))
    else if !Truthy(req.content) then Some(BadRequest("content is required"))
    else if Text.JsLength(Text.Trim(req.content.value)) > LETTER_LENGTH_LIMIT then Some(BadRequest("Content is too long"))
    else if Text.Trim(req.content.value) == "" then Some(BadRequest("Content cannot be empty"))
    else None
  }

  /** The response of POST /letter, checks in the handler's order. */
  function SendStatus(groups: seq<Group>, letters: seq<Letter>, fromEmail: string, req: LetterRequest, today: Today)
    : (r: Status)
    ensures r.BadRequest? <==> !FieldsPresent(req)
    ensures r.BadRequest? ==> FieldError(req) == Some(r)
    ensures r.NotFound? <==> FieldsPresent(req) && FindGroup(groups, req.fromGroupId.value).None?
    ensures r.Forbidden? <==>
      FieldsPresent(req) && FindGroup(groups, req.fromGroupId.value).Some?
      && fromEmail !in groups[FindGroup(groups, req.fromGroupId.value).value].memberEmails
    ensures r.TooManyRequests? <==>
      FieldsPresent(req) && FindGroup(groups, req.fromGroupId.value).Some?
      && fromEmail in groups[FindGroup(groups, req.fromGroupId.value).value].memberEmails
      && CountSentToday(letters, fromEmail, today) >= 1
    ensures r.Created? <==>
      Truthy(req.fromGroupId) && Truthy(req.toEmail) && req.content.Some?
      && Text.HasVisibleChar(req.content.value) && Text.JsLength(Text.Trim(req.content.value)) <= LETTER_LENGTH_LIMIT
      && FindGroup(groups, req.fromGroupId.value).Some?
      && fromEmail in groups[FindGroup(groups, req.fromGroupId.value).value].memberEmails
      && CountSentToday(letters, fromEmail, today) == 0
    ensures r.Created? || r.BadRequest? || r.NotFound? || r.Forbidden? || r.TooManyRequests?
  {
    match FieldError(req)
    case Some(e) => e
    case None =>
      match FindGroup(groups, req.fromGroupId.value)
      case None => NotFound("Group not found")
      case Some(i) =>
        if fromEmail !in groups[i].memberEmails then Forbidden("You must be a member of the group to send letters")
        else if CountSentToday(letters, fromEmail, today) >= 1 then TooManyRequests("You can only send 1 letter per day")
        else Created("Letter sent successfully")
  }

  /** The document `Letter.create` inserts. */
  function NewLetter(id: string, fromEmail: string, req: LetterRequest, now: int): Letter
    requires req.fromGroupId.Some? && req.toEmail.Some? && req.content.Some?
  {
    Letter(id, fromEmail, req.fromGroupId.value, req.toEmail.value, req.alias.GetOr(""),
      Text.Trim(req.content.value), now)
  }

  /** The `letters` collection after POST /letter. */
  function AfterSend(groups: seq<Group>, letters: seq<Letter>, fromEmail: string, req: LetterRequest, today: Today,
                     newId: string): seq<Letter>
  {
    if SendStatus(groups, letters, fromEmail, req, today).Created? then
      letters + [NewLetter(newId, fromEmail, req, today.now)]
    else letters
  }

  /** A sent letter has non-blank trimmed content within the limit and today's timestamp. */
  lemma SentLetterShape(groups: seq<Group>, letters: seq<Letter>, fromEmail: string, req: LetterRequest,
                        today: Today, newId: string)
    requires SendStatus(groups, letters, fromEmail, req, today).Created?
    ensures Text.HasVisibleChar(NewLetter(newId, fromEmail, req, today.now).content)
    ensures Text.JsLength(NewLetter(newId, fromEmail, req, today.now).content) <= LETTER_LENGTH_LIMIT
    ensures Text.Trim(NewLetter(newId, fromEmail, req, today.now).content)
      == NewLetter(newId, fromEmail, req, today.now).content
  {
    Text.TrimEmptyIff(req.content.value);
    Text.TrimEmptyIff(Text.Trim(req.content.value));
    Text.TrimIdempotent(req.content.value);
  }

  /** Sending adds one to the sender's count for the day and leaves everybody else's alone. */
  lemma SendCounts(groups: seq<Group>, letters: seq<Letter>, fromEmail: string, req: LetterRequest,
                   today: Today, newId: string, email: string)
    requires ValidToday(today)
    ensures CountSentToday(AfterSend(groups, letters, fromEmail, req, today, newId), email, today)
      == CountSentToday(letters, email, today)
        + (if email == fromEmail && SendStatus(groups, letters, fromEmail, req, today).Created? then 1 else 0)
  {
    if SendStatus(groups, letters, fromEmail, req, today).Created? {
      var l := NewLetter(newId, fromEmail, req, today.now);
      var p := SentToday(email, today);
      FilterAppend(letters, [l], p);
      assert Filter([l], p) == if p(l) then [l] else [];
    }
  }

  /** Nobody has more than one letter timestamped within the day. */
  ghost predicate DailyQuotaHolds(letters: seq<Letter>, today: Today) {
    forall email :: CountSentToday(letters, email, today) <= 1
  }

  lemma SendPreservesDailyQuota(groups: seq<Group>, letters: seq<Letter>, fromEmail: string, req: LetterRequest,
                                today: Today, newId: string)
    requires ValidToday(today)
    requires DailyQuotaHolds(letters, today)
    ensures DailyQuotaHolds(AfterSend(groups, letters, fromEmail, req, today, newId), today)
  {
    forall email {
      SendCounts(groups, letters, fromEmail, req, today, newId, email);
    }
  }

  /**
   * A letter sent today is listed for nobody until a later day begins;
   * from then on it is listed for its sender and its recipient.
   */
  lemma SentLetterVisibility(groups: seq<Group>, letters: seq<Letter>, fromEmail: string, req: LetterRequest,
                             today: Today, newId: string, userEmail: string, startOfDay: int)
    requires SendStatus(groups, letters, fromEmail, req, today).Created?
    ensures startOfDay <= today.now ==>
      ListLetters(AfterSend(groups, letters, fromEmail, req, today, newId), userEmail, startOfDay)
        == ListLetters(letters, userEmail, startOfDay)
    ensures startOfDay > today.now && (userEmail == fromEmail || userEmail == req.toEmail.value) ==>
      ListLetters(AfterSend(groups, letters, fromEmail, req, today, newId), userEmail, startOfDay)
        == ListLetters(letters, userEmail, startOfDay) + [ViewOf(NewLetter(newId, fromEmail, req, today.now))]
  {
    ListLettersAppend(letters, NewLetter(newId, fromEmail, req, today.now), userEmail, startOfDay);
  }

  /** POST /letter. */
  method SendLetter(db: Store, fromEmail: string, req: LetterRequest, today: Today, newId: string)
    returns (status: Status, letterId: Option<string>)
    requires db.Valid()
    requires forall k :: 0 <= k < |db.letters| ==> db.letters[k].id != newId
    modifies db`letters
    ensures db.Valid()
    ensures status == SendStatus(db.groups, old(db.letters), fromEmail, req, today)
    ensures db.letters == AfterSend(db.groups, old(db.letters), fromEmail, req, today, newId)
    ensures letterId == if status.Created? then Some(newId) else None
  {
    letterId := None;
    if !Truthy(req.fromGroupId) {
      return BadRequest("fromGroupId is required"), letterId;
    }
    if !Truthy(req.toEmail) {
      return BadRequest("toEmail is required"), letterId;
    }
    if !Truthy(req.content) {
      return BadRequest("content is required"), letterId;
    }
    var content := Text.Trim(req.content.value);
    if Text.JsLength(content) > LETTER_LENGTH_LIMIT {
      return BadRequest("Content is too long"), letterId;
    }
    if content == "" {
      return BadRequest("Content cannot be empty"), letterId;
    }
    var found := FindGroup(db.groups, req.fromGroupId.value);
    if found.None? {
      return NotFound("Group not found"), letterId;
    }
    if fromEmail !in db.groups[found.value].memberEmails {
      return Forbidden("You must be a member of the group to send letters"), letterId;
    }
    var lettersToday := CountSentToday(db.letters, fromEmail, today);
    if lettersToday >= 1 {
      return TooManyRequests("You can only send 1 letter per day"), letterId;
    }
    var letter := Letter(newId, fromEmail, req.fromGroupId.value, req.toEmail.value, req.alias.GetOr(""),
      content, today.now);
    db.letters := db.letters + [letter];
    status, letterId := Created("Letter sent successfully"), Some(newId);
  }
}
