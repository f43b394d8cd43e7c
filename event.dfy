/**
 * The event server actions: the lookup by id and the creation pipeline
 * (schema check, session check, one upload per image, one insert, error classification).
 * The database table is a map from id to record held by an `EventStore` object; the image
 * host is a function from a file to the URL it answers with, or none; the session cookie
 * `privy-id-token` is an optional string.
 */
module EventActions {
  import opened Types
  import opened ValidateSchema

  const EVENT_NOT_FOUND := "Event not found"
  const NOT_AUTHENTICATED := "Not authenticated"
  const UNKNOWN_ERROR := "Unknown error"
  /** The message of the error a failed upload throws; it never reaches the caller. */
  const IMAGE_UPLOAD_FAILED := "Image upload failed"

  /** A persisted event, with its times in whole seconds since the epoch. */
  datatype Event = Event(
    id: string,
    name: string,
    location: string,
    startAt: int,
    endAt: int,
    images: seq<string>,
    creatorWallet: string,
    ticketPrice: real)

  /**
   * What the safe-action client hands back to the form: validation errors (from the schema,
   * or raised by the action itself) or the action's own envelope.
   */
  datatype SafeActionResult<+T> = ValidationErrors(issues: seq<Issue>) | Data(response: ActionResponse<T>)

  /** How the database can refuse an insert. */
  datatype DbFault = KnownRequestError(message: string) | OtherDbError

  /** What the `try` block of the creation action can throw. */
  datatype Thrown = UploadError | Db(fault: DbFault)

  /** `getUnixTime`: milliseconds to whole seconds, truncating toward zero. */
  function UnixTime(ms: int): (s: int)
    ensures ms >= 0 ==> s == ms / 1000
    ensures 0 <= ms ==> 0 <= s * 1000 <= ms < s * 1000 + 1000
    ensures ms < 0 ==> s * 1000 - 1000 < ms <= s * 1000 <= 0
  {
    if ms >= 0 then ms / 1000 else -((-ms) / 1000)
  }

  /**
   * JavaScript truthiness of an optional string: `undefined`/`null` and the empty string are
   * falsy. `!idToken` (a missing or empty cookie) and `!url` (a null answer or an empty URL)
   * both test it.
   */
  predicate Truthy(v: Option<string>)
    ensures Truthy(v) <==> v != None && v != Some("")
  {
    v.Some? && v.value != ""
  }

  /**
   * The join of the uploads: the URLs in file order when every upload answered with one,
   * none as soon as one of them did not.
   */
  function UploadAll(files: seq<File>, upload: File -> Option<string>): (urls: Option<seq<string>>)
    ensures urls.Some? <==> forall i :: 0 <= i < |files| ==> Truthy(upload(files[i]))
    ensures urls.Some? ==>
      |urls.value| == |files| && forall i :: 0 <= i < |files| ==> urls.value[i] == upload(files[i]).value
  {
    if files == [] then Some([])
    else
      var init := UploadAll(files[..|files| - 1], upload);
      var last := upload(files[|files| - 1]);
      if init.Some? && Truthy(last) then Some(init.value + [last.value]) else None
  }

  /**
   * The `catch` block: a known database error surfaces its own message; everything else,
   * the error thrown by a failed upload included, becomes "Unknown error".
   */
  function Catch(e: Thrown): (r: ActionResponse<Event>)
    ensures r.Failure?
    ensures e.UploadError? ==> r.error == UNKNOWN_ERROR
    ensures e.Db? && e.fault.KnownRequestError? ==> r.error == e.fault.message
    ensures e.Db? && e.fault.OtherDbError? ==> r.error == UNKNOWN_ERROR
  {
    match e
    case Db(KnownRequestError(message)) => Failure(message)
    case _ => Failure(UNKNOWN_ERROR)
  }

  class EventStore {
    var events: map<string, Event>

    /** Every record is stored under its own id. */
    ghost predicate Valid()
      reads this
    {
      forall id :: id in events ==> events[id].id == id
    }

    constructor ()
      ensures Valid() && events == map[]
    {
      events := map[];
    }

    /**
     * `getEventByIdAction`: the stored record, or "Event not found". Its schema only asks
     * for a string id, so the action body always runs.
     */
    function GetEventByIdAction(id: string): (r: SafeActionResult<Event>)
      reads this
      ensures r.Data?
      ensures r.response.Failure? <==> id !in events
      ensures r.response.Failure? ==> r.response.error == EVENT_NOT_FOUND
      ensures r.response.Success? ==> r.response.data == events[id]
      ensures Valid() && r.response.Success? ==> r.response.data.id == id
    {
      Data(if id in events then Success(events[id]) else Failure(EVENT_NOT_FOUND))
    }

    /**
     * `createEventAction` as the safe-action client runs it: the schema first, then the body.
     * `startOfToday` is the server's start of day, `token` the session cookie, `upload` the
     * image host, `freshId` the id the database assigns and `insertFault` whether and how the
     * insert fails. `uploaded` lists the files handed to the image host, in order.
     */
    method CreateEventAction(
      d: Draft, startOfToday: int, token: Option<string>, upload: File -> Option<string>,
      freshId: string, insertFault: Option<DbFault>)
      returns (r: SafeActionResult<Event>, uploaded: seq<File>)
      requires Valid()
      requires freshId !in events
      modifies this
      ensures Valid()
      // The schema rejects: the action body does not run.
      ensures !Accepts(d, startOfToday) ==>
        r == ValidationErrors(Issues(d, startOfToday)) && uploaded == [] && events == old(events)
      ensures Accepts(d, startOfToday) ==> uploaded == (if Truthy(token) then d.image else [])
      ensures Accepts(d, startOfToday) ==> r == BodyResult(d, token, upload, freshId, insertFault)
      ensures Accepts(d, startOfToday) ==> events == BodyStore(old(events), d, token, upload, freshId, insertFault)
      // A success stores exactly one new record, readable by its id; nothing else changes.
      ensures r.Data? && r.response.Success? ==>
        r.response.data.id == freshId && GetEventByIdAction(freshId) == r &&
        events.Keys == old(events).Keys + {freshId} && |events| == |old(events)| + 1
      ensures events - {freshId} == old(events)
    {
      BodyInsertsAtMostOne(events, d, token, upload, freshId, insertFault);
      var issues := Issues(d, startOfToday);
      if issues != [] {
        r, uploaded := ValidationErrors(issues), [];
        return;
      }
      r, uploaded := ActionBody(d, token, upload, freshId, insertFault);
    }

    /** The body of `createEventAction`, run on input the schema accepted. */
    method ActionBody(
      d: Draft, token: Option<string>, upload: File -> Option<string>,
      freshId: string, insertFault: Option<DbFault>)
      returns (r: SafeActionResult<Event>, uploaded: seq<File>)
      requires Valid()
      requires freshId !in events
      modifies this
      ensures Valid()
      ensures uploaded == (if Truthy(token) then d.image else [])
      ensures r == BodyResult(d, token, upload, freshId, insertFault)
      ensures events == BodyStore(old(events), d, token, upload, freshId, insertFault)
    {
      if !Truthy(token) {
        r, uploaded := ValidationErrors([Issue("", NOT_AUTHENTICATED)]), [];
        return;
      }
      var urls;
      urls, uploaded := UploadImages(d.image, upload);
      if urls.None? {
        r := Data(Catch(UploadError));
        return;
      }
      // The join yields an array on every path that does not throw, so the `!imageUrls`
      // branch is absent here.
      if insertFault.Some? {
        r := Data(Catch(Db(insertFault.value)));
        return;
      }
      var e := NewRecord(freshId, d, urls.value);
      events := events[freshId := e];
      r := Data(Success(e));
    }
  }


  /**
   * `Promise.all(files.map(...))`: every file is handed to the image host, in order, and the
   * answers are joined.
   */
  method UploadImages(files: seq<File>, upload: File -> Option<string>)
    returns (urls: Option<seq<string>>, uploaded: seq<File>)
    ensures uploaded == files
    ensures urls == UploadAll(files, upload)
  {
    uploaded := [];
    var got: seq<string> := [];
    var failed := false;
    for i := 0 to |files|
      invariant uploaded == files[..i]
      invariant failed <==> UploadAll(files[..i], upload).None?
      invariant !failed ==> UploadAll(files[..i], upload) == Some(got)
    {
      assert files[..i + 1][..i] == files[..i];
      var answer := upload(files[i]);
      uploaded := uploaded + [files[i]];
      if Truthy(answer) {
        got := got + [answer.value];
      } else {
        failed := true;
      }
    }
    assert files[..|files|] == files;
    urls := if failed then None else Some(got);
  }

  /** The data handed to `prisma.event.create`, with the id the database assigns. */
  function NewRecord(id: string, d: Draft, urls: seq<string>): (e: Event)
    ensures e.id == id && e.images == urls
    ensures e.name == d.name && e.location == d.location
    ensures e.creatorWallet == d.wallet && e.ticketPrice == d.ticketPrice
    ensures d.startAt >= 0 ==> e.startAt * 1000 <= d.startAt < e.startAt * 1000 + 1000
    ensures d.endAt >= 0 ==> e.endAt * 1000 <= d.endAt < e.endAt * 1000 + 1000
    // Before the epoch the seconds are truncated toward zero: -1500 ms is stored as -1.
    ensures d.startAt < 0 ==> e.startAt * 1000 - 1000 < d.startAt <= e.startAt * 1000 <= 0
    ensures d.endAt < 0 ==> e.endAt * 1000 - 1000 < d.endAt <= e.endAt * 1000 <= 0
    ensures e.startAt == UnixTime(d.startAt) && e.endAt == UnixTime(d.endAt)
  {
    Event(id, d.name, d.location, UnixTime(d.startAt), UnixTime(d.endAt), urls, d.wallet, d.ticketPrice)
  }

  /** What the body of `createEventAction` returns. */
  function BodyResult(
    d: Draft, token: Option<string>, upload: File -> Option<string>,
    freshId: string, insertFault: Option<DbFault>): (r: SafeActionResult<Event>)
    ensures r.ValidationErrors? <==> !Truthy(token)
    ensures r.ValidationErrors? ==> r.issues == [Issue("", NOT_AUTHENTICATED)]
    // A failure carries "Unknown error" or the message of a known database error.
    ensures r.Data? && r.response.Failure? ==>
      r.response.error == UNKNOWN_ERROR ||
      (insertFault.Some? && insertFault.value.KnownRequestError? &&
       r.response.error == insertFault.value.message)
    ensures r.Data? && r.response.Success? ==> r.response.data.id == freshId
  {
    if !Truthy(token) then ValidationErrors([Issue("", NOT_AUTHENTICATED)])
    else match UploadAll(d.image, upload)
      case None => Data(Catch(UploadError))
      case Some(urls) =>
        if insertFault.Some? then Data(Catch(Db(insertFault.value)))
        else Data(Success(NewRecord(freshId, d, urls)))
  }

  /** The table after the body of `createEventAction` has run. */
  function BodyStore(
    events: map<string, Event>, d: Draft, token: Option<string>, upload: File -> Option<string>,
    freshId: string, insertFault: Option<DbFault>): (after: map<string, Event>)
    ensures after.Keys <= events.Keys + {freshId}
    ensures forall id :: id in events && id != freshId ==> id in after && after[id] == events[id]
    ensures freshId in after && freshId !in events ==> after[freshId].id == freshId
    ensures !Truthy(token) || insertFault.Some? ==> after == events
  {
    if Truthy(token) && UploadAll(d.image, upload).Some? && insertFault.None? then
      events[freshId := NewRecord(freshId, d, UploadAll(d.image, upload).value)]
    else events
  }

  /**
   * A successful body stores exactly one record, the one it returns, under the fresh id;
   * every other outcome leaves the table as it was.
   */
  lemma BodyInsertsAtMostOne(
    events: map<string, Event>, d: Draft, token: Option<string>, upload: File -> Option<string>,
    freshId: string, insertFault: Option<DbFault>)
    requires freshId !in events
    ensures events - {freshId} == events
    ensures var r := BodyResult(d, token, upload, freshId, insertFault);
            var after := BodyStore(events, d, token, upload, freshId, insertFault);
            if r.Data? && r.response.Success? then
              r.response.data.id == freshId && after == events[freshId := r.response.data] &&
              after.Keys == events.Keys + {freshId} && |after| == |events| + 1 &&
              after - {freshId} == events
            else after == events
  {
    assert events - {freshId} == events;
    var urls := UploadAll(d.image, upload);
    if Truthy(token) && urls.Some? && insertFault.None? {
      var e := NewRecord(freshId, d, urls.value);
      assert BodyResult(d, token, upload, freshId, insertFault) == Data(Success(e));
      assert BodyStore(events, d, token, upload, freshId, insertFault) == events[freshId := e];
      AddFresh(events, freshId, e);
    } else {
      assert BodyStore(events, d, token, upload, freshId, insertFault) == events;
    }
  }

  /** Storing under an unused key adds exactly that key and leaves the rest as it was. */
  lemma AddFresh(events: map<string, Event>, k: string, e: Event)
    requires k !in events
    ensures events - {k} == events
    ensures var m := events[k := e];
      m.Keys == events.Keys + {k} && |m| == |events| + 1 && m - {k} == events
  {
    var m := events[k := e];
    assert m.Keys == events.Keys + {k};
    assert m - {k} == events;
  }

  /** Without a usable session token the body stops at once: nothing is uploaded or stored. */
  lemma NotAuthenticatedStops(
    events: map<string, Event>, d: Draft, token: Option<string>, upload: File -> Option<string>,
    freshId: string, insertFault: Option<DbFault>)
    requires token.None? || token == Some("")
    ensures BodyResult(d, token, upload, freshId, insertFault) == ValidationErrors([Issue("", NOT_AUTHENTICATED)])
    ensures BodyStore(events, d, token, upload, freshId, insertFault) == events
  {
  }

  /** One upload without a URL, wherever it is in the list, ends in "Unknown error" and stores nothing. */
  lemma UploadFailureIsUnknownError(
    events: map<string, Event>, d: Draft, token: Option<string>, upload: File -> Option<string>,
    freshId: string, insertFault: Option<DbFault>, i: nat)
    requires Truthy(token)
    requires i < |d.image| && !Truthy(upload(d.image[i]))
    ensures BodyResult(d, token, upload, freshId, insertFault) == Data(Failure(UNKNOWN_ERROR))
    ensures BodyStore(events, d, token, upload, freshId, insertFault) == events
  {
    assert UploadAll(d.image, upload).None?;
  }

  /**
   * The body succeeds iff the session token is usable, every upload answers with a URL and the
   * insert goes through. The record it returns carries the fresh id, the draft's name, location,
   * wallet and price, the URLs in file order, and the times in whole seconds; the ticket count
   * is not stored.
   */
  lemma CreateSucceedsIff(d: Draft, token: Option<string>, upload: File -> Option<string>,
                          freshId: string, insertFault: Option<DbFault>)
    ensures var r := BodyResult(d, token, upload, freshId, insertFault);
      (r.Data? && r.response.Success?) <==>
      (Truthy(token) && (forall i :: 0 <= i < |d.image| ==> Truthy(upload(d.image[i]))) &&
       insertFault.None?)
    ensures var r := BodyResult(d, token, upload, freshId, insertFault);
      r.Data? && r.response.Success? ==>
        var e := r.response.data;
        && e.id == freshId && e.name == d.name && e.location == d.location
        && e.creatorWallet == d.wallet && e.ticketPrice == d.ticketPrice
        && |e.images| == |d.image|
        && (forall i :: 0 <= i < |d.image| ==> e.images[i] == upload(d.image[i]).value)
        && e.startAt == UnixTime(d.startAt) && e.endAt == UnixTime(d.endAt)
        && (d.startAt >= 0 ==> e.startAt == d.startAt / 1000)
        && (d.endAt >= 0 ==> e.endAt == d.endAt / 1000)
  {
    var urls := UploadAll(d.image, upload);
    if Truthy(token) && urls.Some? && insertFault.None? {
      var e := NewRecord(freshId, d, urls.value);
      assert BodyResult(d, token, upload, freshId, insertFault) == Data(Success(e));
    }
  }

  /**
   * After the uploads, a refused insert is reported with the database's own message when it
   * is a known request error and as "Unknown error" otherwise. The "Image upload failed"
   * envelope is never produced by the action itself.
   */
  lemma FailureClassification(d: Draft, token: Option<string>, upload: File -> Option<string>,
                              freshId: string, insertFault: Option<DbFault>)
    ensures var r := BodyResult(d, token, upload, freshId, insertFault);
      Truthy(token) && UploadAll(d.image, upload).Some? && insertFault.Some? ==>
        r == Data(Failure(if insertFault.value.KnownRequestError? then insertFault.value.message
                          else UNKNOWN_ERROR))
    ensures BodyResult(d, token, upload, freshId, insertFault) == Data(Failure(IMAGE_UPLOAD_FAILED)) ==>
      insertFault == Some(KnownRequestError(IMAGE_UPLOAD_FAILED))
  {
  }

  /**
   * The end-to-end case: "Demo Talk" in "Remote" at 1.5 for 10 tickets, tomorrow 10:00 to
   * 11:00, one 1 MB JPEG.
   */
  function DemoTalk(startOfToday: int): Draft
  {
    Draft("0xwallet", "Demo Talk", 1.5, "Remote",
          startOfToday + 34 * 3600000, startOfToday + 35 * 3600000,
          [File("talk.jpg", 1000000, "image/jpeg")], 10.0)
  }

  /** The schema accepts the end-to-end draft. */
  lemma DemoTalkAccepted(startOfToday: int)
    ensures Accepts(DemoTalk(startOfToday), startOfToday)
  {
    var d := DemoTalk(startOfToday);
    assert forall i :: 0 <= i < |d.name| ==> (d.name[i] as int) < 0x1_0000;
    assert forall i :: 0 <= i < |d.location| ==> (d.location[i] as int) < 0x1_0000;
    assert Utf16Length(d.name) == 9 && Utf16Length(d.location) == 6;
    assert d.image[0].mimeType == ACCEPTED_IMAGE_TYPES[0];
    AcceptsIff(d, startOfToday);
  }

  /**
   * With a session, a URL from the image host and a working insert, the end-to-end draft
   * uploads one file and creates one record with one image and price 1.5.
   */
  lemma DemoTalkCreated(startOfToday: int, token: string, url: string, freshId: string)
    requires token != "" && url != ""
    ensures var d := DemoTalk(startOfToday);
      var r := BodyResult(d, Some(token), (f: File) => Some(url), freshId, None);
      && r == Data(Success(NewRecord(freshId, d, [url])))
      && r.response.data.images == [url]
      && r.response.data.ticketPrice == 1.5
  {
    var d := DemoTalk(startOfToday);
    var upload := (f: File) => Some(url);
    assert |d.image| == 1 && Truthy(upload(d.image[0]));
    var urls := UploadAll(d.image, upload);
    assert urls.Some? && |urls.value| == 1 && urls.value[0] == url;
    assert urls.value == [url];
  }
}
