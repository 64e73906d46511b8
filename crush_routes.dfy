/**
 * The `/crush` routes: saving the caller's crush for the current month and
 * listing the caller's crushes with the reciprocal message, if any.
 */
module CrushRoutes {
  import opened Wrappers
  import opened Seqs
  import opened Models
  import opened ServerConfig
  import opened Clock
  import Text
  import ServerTime

  // ----------------------------------------------------------------- POST /

  datatype CrushRequest = CrushRequest(toEmail: Option<string>, message: Option<string>)

  /** The response of POST /crush, checks in the handler's order. */
  function SaveStatus(req: CrushRequest): (r: Status)
    ensures r.Ok? || r.BadRequest?
    ensures r.Ok? <==>
      Truthy(req.toEmail) && req.message.Some? && Text.HasVisibleChar(req.message.value)
      && Text.JsLength(Text.Trim(req.message.value)) <= MESSAGE_LENGTH_LIMIT
    ensures !Truthy(req.toEmail) ==> r == BadRequest("toEmail is required")
  {
    Text.TrimEmptyIff(req.message.GetOr(""));
    if !Truthy(req.toEmail) then BadRequest("toEmail is required")
    else if Truthy(req.message) && Text.JsLength(Text.Trim(req.message.value)) > MESSAGE_LENGTH_LIMIT then
      BadRequest("Message is too long")
    else if !Truthy(req.message) || Text.Trim(req.message.value) == "" then
      BadRequest("Message cannot be empty")
    else Ok("Crush saved successfully")
  }

  /** The query key of `Crush.findOne({ fromEmail, toEmail, month })`. */
  predicate HasKey(c: Crush, fromEmail: string, toEmail: string, month: string) {
    c.fromEmail == fromEmail && c.toEmail == toEmail && c.month == month
  }

  /** The first crush with the given key, if any. */
  function FindCrush(crushes: seq<Crush>, fromEmail: string, toEmail: string, month: string): (r: Option<nat>)
    ensures r.Some? ==> r.value < |crushes| && HasKey(crushes[r.value], fromEmail, toEmail, month)
    ensures r.Some? ==> forall k :: 0 <= k < r.value ==> !HasKey(crushes[k], fromEmail, toEmail, month)
    ensures r.None? <==> forall k :: 0 <= k < |crushes| ==> !HasKey(crushes[k], fromEmail, toEmail, month)
  {
    if crushes == [] then None
    else if HasKey(crushes[0], fromEmail, toEmail, month) then Some(0)
    else
      match FindCrush(crushes[1..], fromEmail, toEmail, month)
      case None => None
      case Some(k) => Some(k + 1)
  }

  /** At most one crush per (sender, recipient, month). */
  predicate UniqueKeys(crushes: seq<Crush>) {
    forall i, j :: 0 <= i < j < |crushes| ==>
      !HasKey(crushes[j], crushes[i].fromEmail, crushes[i].toEmail, crushes[i].month)
  }

  /** Update the message of the crush with this key, or create it. */
  function Upsert(crushes: seq<Crush>, fromEmail: string, toEmail: string, month: string, message: string)
    : seq<Crush>
  {
    match FindCrush(crushes, fromEmail, toEmail, month)
    case Some(i) => crushes[i := crushes[i].(toEmail := toEmail, message := message)]
    case None => crushes + [Crush(fromEmail, toEmail, month, message)]
  }

  /**
   * After an upsert the key names a crush with the new message, and every
   * crush with another key keeps its place and contents; the collection
   * grows by one exactly when the key was new.
   */
  lemma UpsertEffect(crushes: seq<Crush>, fromEmail: string, toEmail: string, month: string, message: string)
    ensures var r := Upsert(crushes, fromEmail, toEmail, month, message);
      && FindCrush(r, fromEmail, toEmail, month).Some?
      && r[FindCrush(r, fromEmail, toEmail, month).value] == Crush(fromEmail, toEmail, month, message)
      && (forall k :: 0 <= k < |crushes| && !HasKey(crushes[k], fromEmail, toEmail, month) ==> r[k] == crushes[k])
      && |r| == |crushes| + (if FindCrush(crushes, fromEmail, toEmail, month).Some? then 0 else 1)
  {
    var r := Upsert(crushes, fromEmail, toEmail, month, message);
    match FindCrush(crushes, fromEmail, toEmail, month)
    case Some(i) =>
      assert HasKey(r[i], fromEmail, toEmail, month);
    case None =>
      assert HasKey(r[|crushes|], fromEmail, toEmail, month);
  }

  lemma UpsertKeepsKeysUnique(crushes: seq<Crush>, fromEmail: string, toEmail: string, month: string, message: string)
    requires UniqueKeys(crushes)
    ensures UniqueKeys(Upsert(crushes, fromEmail, toEmail, month, message))
  {
  }

  /** Saving the same crush twice is the same as saving it once; a later message replaces an earlier one. */
  lemma UpsertLastWins(crushes: seq<Crush>, fromEmail: string, toEmail: string, month: string, m1: string, m2: string)
    ensures Upsert(Upsert(crushes, fromEmail, toEmail, month, m1), fromEmail, toEmail, month, m2)
      == Upsert(crushes, fromEmail, toEmail, month, m2)
  {
    var once := Upsert(crushes, fromEmail, toEmail, month, m1);
    match FindCrush(crushes, fromEmail, toEmail, month)
    case Some(i) =>
      assert HasKey(once[i], fromEmail, toEmail, month);
      assert forall k :: 0 <= k < i ==> once[k] == crushes[k];
      var j := FindCrush(once, fromEmail, toEmail, month);
      assert j.Some?;
      assert !(j.value < i) && !(j.value > i);
    case None =>
      assert HasKey(once[|crushes|], fromEmail, toEmail, month);
      assert FindCrush(once, fromEmail, toEmail, month) == Some(|crushes|);
  }

  /** The `crushes` collection after POST /crush in the month `now` falls in. */
  function AfterSave(crushes: seq<Crush>, fromEmail: string, req: CrushRequest, now: DateFields): seq<Crush>
    requires ValidFields(now)
  {
    if SaveStatus(req).Ok? then
      Upsert(crushes, fromEmail, req.toEmail.value, ServerTime.GetCurrentMonth(now), Text.Trim(req.message.value))
    else crushes
  }

  /** POST /crush. */
  method SaveCrush(db: Store, fromEmail: string, req: CrushRequest, now: DateFields)
    returns (status: Status)
    requires ValidFields(now)
    modifies db`crushes
    ensures status == SaveStatus(req)
    ensures db.crushes == AfterSave(old(db.crushes), fromEmail, req, now)
  {
    if !Truthy(req.toEmail) {
      return BadRequest("toEmail is required");
    }
    if Truthy(req.message) && Text.JsLength(Text.Trim(req.message.value)) > MESSAGE_LENGTH_LIMIT {
      return BadRequest("Message is too long");
    }
    if !Truthy(req.message) || Text.Trim(req.message.value) == "" {
      return BadRequest("Message cannot be empty");
    }
    var toEmail := req.toEmail.value;
    var month := ServerTime.GetCurrentMonth(now);
    var found := FindCrush(db.crushes, fromEmail, toEmail, month);
    if found.Some? {
      var crush := db.crushes[found.value];
      crush := crush.(toEmail := toEmail, message := Text.Trim(req.message.value));
      db.crushes := db.crushes[found.value := crush];
    } else {
      db.crushes := db.crushes + [Crush(fromEmail, toEmail, month, Text.Trim(req.message.value))];
    }
    status := Ok("Crush saved successfully");
  }

  /** A saved crush carries a non-blank, trimmed message within the limit. */
  lemma SavedMessageShape(req: CrushRequest)
    requires SaveStatus(req).Ok?
    ensures Text.Trim(req.message.value) != ""
    ensures Text.Trim(Text.Trim(req.message.value)) == Text.Trim(req.message.value)
    ensures Text.JsLength(Text.Trim(req.message.value)) <= MESSAGE_LENGTH_LIMIT
  {
    Text.TrimEmptyIff(req.message.value);
    Text.TrimIdempotent(req.message.value);
  }

  // ------------------------------------------------------------------ GET /

  /** One line of the crush listing. */
  datatype CrushEntry = CrushEntry(toEmail: string, message: string, month: string, responseMessage: string)

  /** The recipient's message back to `userEmail` for the same month, or "" when there is none. */
  function ResponseMessage(crushes: seq<Crush>, c: Crush, userEmail: string): (r: string)
    ensures FindCrush(crushes, c.toEmail, userEmail, c.month).None? ==> r == ""
    ensures FindCrush(crushes, c.toEmail, userEmail, c.month).Some? ==>
      r == crushes[FindCrush(crushes, c.toEmail, userEmail, c.month).value].message
  {
    match FindCrush(crushes, c.toEmail, userEmail, c.month)
    case None => ""
    case Some(i) => crushes[i].message
  }

  function Entry(crushes: seq<Crush>, userEmail: string): Crush -> CrushEntry {
    (c: Crush) => CrushEntry(c.toEmail, c.message, c.month, ResponseMessage(crushes, c, userEmail))
  }

  function SentBy(userEmail: string): Crush -> bool {
    (c: Crush) => c.fromEmail == userEmail
  }

  /**
   * The entries for the caller's crushes among `listed`, each answered from
   * the whole collection `lookup`: one entry for a single crush of the
   * caller, none for anybody else's.
   */
  function EntriesOf(lookup: seq<Crush>, listed: seq<Crush>, userEmail: string): (r: seq<CrushEntry>)
    ensures |r| <= |listed|
    ensures |listed| == 1 ==>
      r == if listed[0].fromEmail == userEmail then [Entry(lookup, userEmail)(listed[0])] else []
  {
    Map(Filter(listed, SentBy(userEmail)), Entry(lookup, userEmail))
  }

  /** The entries of a concatenation are the concatenated entries, so the listing keeps store order. */
  lemma ListCrushesAppend(lookup: seq<Crush>, a: seq<Crush>, b: seq<Crush>, userEmail: string)
    ensures EntriesOf(lookup, a + b, userEmail) == EntriesOf(lookup, a, userEmail) + EntriesOf(lookup, b, userEmail)
  {
    FilterAppend(a, b, SentBy(userEmail));
    MapAppend(Filter(a, SentBy(userEmail)), Filter(b, SentBy(userEmail)), Entry(lookup, userEmail));
  }

  /** GET /crush: one entry per crush the caller sent, in store order. */
  function ListCrushes(crushes: seq<Crush>, userEmail: string): (r: seq<CrushEntry>)
    ensures |r| <= |crushes|
    ensures r == EntriesOf(crushes, crushes, userEmail)
    ensures forall k :: 0 <= k < |crushes| && crushes[k].fromEmail == userEmail ==>
      Entry(crushes, userEmail)(crushes[k]) in r
    ensures forall e :: e in r ==>
      exists k :: 0 <= k < |crushes| && crushes[k].fromEmail == userEmail && e == Entry(crushes, userEmail)(crushes[k])
  {
    var mine := Filter(crushes, SentBy(userEmail));
    var r := Map(mine, Entry(crushes, userEmail));
    assert forall e :: e in r ==> exists i :: 0 <= i < |mine| && e == Entry(crushes, userEmail)(mine[i]);
    r
  }

  /**
   * The reveal is mutual: when two people chose each other in the same month,
   * each one's entry carries the other's message; otherwise the response is "".
   */
  lemma MutualReveal(crushes: seq<Crush>, a: nat, b: nat)
    requires UniqueKeys(crushes)
    requires a < |crushes| && b < |crushes|
    requires crushes[b].fromEmail == crushes[a].toEmail && crushes[b].toEmail == crushes[a].fromEmail
    requires crushes[b].month == crushes[a].month
    ensures ResponseMessage(crushes, crushes[a], crushes[a].fromEmail) == crushes[b].message
    ensures ResponseMessage(crushes, crushes[b], crushes[b].fromEmail) == crushes[a].message
  {
    var ka := FindCrush(crushes, crushes[b].fromEmail, crushes[b].toEmail, crushes[b].month);
    var kb := FindCrush(crushes, crushes[a].fromEmail, crushes[a].toEmail, crushes[a].month);
    assert ka.Some? && kb.Some?;
    assert ka.value == b by {
      if ka.value < b {
      } else if ka.value > b {
      }
    }
    assert kb.value == a by {
      if kb.value < a {
      } else if kb.value > a {
      }
    }
  }

  lemma NoReciprocalNoResponse(crushes: seq<Crush>, c: Crush, userEmail: string)
    requires forall k :: 0 <= k < |crushes| ==> !HasKey(crushes[k], c.toEmail, userEmail, c.month)
    ensures ResponseMessage(crushes, c, userEmail) == ""
  {
  }
}
