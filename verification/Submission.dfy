/**
 Idempotent submission: the keyed insert-or-read transaction behind POST /v1/notifications, and the
 stable function from keys to notifications that it computes over any sequence of requests.
*/
module Submission {
  import opened Prelude

  type NotificationId = nat

  datatype Channel = Email(to: string) | Sms(to: string) | Webhook(url: string) | Unsupported

  datatype Request = Request(channel: Channel, payload: string, metadata: string)

  /** canonical_hash: SHA-256 over canonical JSON, taken to be injective on requests. */
  datatype Digest = CanonicalHash(request: Request)

  datatype IdemKey = IdemKey(idempotencyKey: string, apiKeyId: nat, httpMethod: string, path: string)

  datatype IdemStatus = Processing | Completed

  datatype IdemRecord = IdemRecord(id: nat, requestHash: Digest, notificationId: Option<NotificationId>, status: IdemStatus)

  datatype Notification = Notification(recipient: string, request: Request)

  /**
   The two tables and what their defaults draw from: a sequence for record ids and a source of
   fresh UUIDs. Neither gives the same value twice, rolled back or not.
  */
  datatype Store = Store(
    keys: map<IdemKey, IdemRecord>,
    notifications: map<NotificationId, Notification>,
    nextRecordId: nat,
    nextNotificationId: NotificationId
  )

  datatype SubmissionError =
    | UnsupportedChannel      // 400
    | RecipientEmpty          // recipient_not_empty CHECK
    | Unprocessable           // 500, key neither inserted nor found
    | HashMismatch            // 409
    | StillProcessing         // 404
    | InternalInconsistency   // 500, key names a missing notification

  datatype Submitted = Submitted(id: NotificationId, isNewRequest: bool)

  const EMPTY := Store(map[], map[], 1, 0)

  function ResolveRecipient(r: Request): Result<string, SubmissionError> {
    match r.channel
    case Email(to) => Ok(to)
    case Sms(to) => Ok(to)
    case Webhook(url) => Ok(url)
    case Unsupported => Err(UnsupportedChannel)
  }

  /** UPDATE .. WHERE id = $1: the record with that id is completed, every other kept. */
  function Completing(keys: map<IdemKey, IdemRecord>, recordId: nat, id: NotificationId): (after: map<IdemKey, IdemRecord>)
    ensures after.Keys == keys.Keys
    ensures forall k | k in keys && keys[k].id != recordId :: after[k] == keys[k]
    ensures forall k | k in keys && keys[k].id == recordId ::
              after[k] == IdemRecord(recordId, keys[k].requestHash, Some(id), Completed)
  {
    map k | k in keys ::
      if keys[k].id == recordId then keys[k].(notificationId := Some(id), status := Completed) else keys[k]
  }

  /** The branch for a key that is already taken. */
  function Existing(st: Store, key: IdemKey, hash: Digest): Result<Submitted, SubmissionError> {
    if key !in st.keys then Err(Unprocessable)
    else if st.keys[key].requestHash != hash then Err(HashMismatch)
    else match st.keys[key].notificationId
      case None => Err(StillProcessing)
      case Some(id) => if id !in st.notifications then Err(InternalInconsistency) else Ok(Submitted(id, false))
  }

  /** submit_notification as one transaction: what it leaves behind and what it answers. */
  function Submit(st: Store, key: IdemKey, r: Request): (Store, Result<Submitted, SubmissionError>) {
    var recipient := ResolveRecipient(r);
    if recipient.Err? then (st, Err(recipient.error))
    else
      var drawn := st.(nextRecordId := st.nextRecordId + 1);
      if key in st.keys then (drawn, Existing(st, key, CanonicalHash(r)))
      else if recipient.value == "" then
        (drawn.(nextNotificationId := st.nextNotificationId + 1), Err(RecipientEmpty))
      else
        var id := st.nextNotificationId;
        var inserted := st.keys[key := IdemRecord(st.nextRecordId, CanonicalHash(r), None, Processing)];
        (Store(Completing(inserted, st.nextRecordId, id),
               st.notifications[id := Notification(recipient.value, r)],
               st.nextRecordId + 1, id + 1),
         Ok(Submitted(id, true)))
  }

  // ---------------------------------------------------------------- the statements, in place

  class SubmissionDatabase {
    var keys: map<IdemKey, IdemRecord>
    var notifications: map<NotificationId, Notification>
    var nextRecordId: nat
    var nextNotificationId: NotificationId

    constructor ()
      ensures Contents() == EMPTY
    {
      keys, notifications, nextRecordId, nextNotificationId := map[], map[], 1, 0;
    }

    ghost function Contents(): Store
      reads this
    {
      Store(keys, notifications, nextRecordId, nextNotificationId)
    }

    /** INSERT .. ON CONFLICT DO NOTHING RETURNING *. */
    method InsertIdemKeys(key: IdemKey, hash: Digest) returns (record: Option<IdemRecord>)
      modifies this
      ensures nextRecordId == old(nextRecordId) + 1
      ensures notifications == old(notifications) && nextNotificationId == old(nextNotificationId)
      ensures key in old(keys) ==> record == None && keys == old(keys)
      ensures key !in old(keys) ==>
                && record == Some(IdemRecord(old(nextRecordId), hash, None, Processing))
                && keys == old(keys)[key := record.value]
    {
      var r := IdemRecord(nextRecordId, hash, None, Processing);
      nextRecordId := nextRecordId + 1;
      if key in keys {
        return None;
      }
      keys := keys[key := r];
      record := Some(r);
    }

    method GetIdemKeys(key: IdemKey) returns (record: Option<IdemRecord>)
      ensures record == if key in keys then Some(keys[key]) else None
    {
      record := if key in keys then Some(keys[key]) else None;
    }

    method CompleteIdempotency(recordId: nat, id: NotificationId)
      modifies this`keys
      ensures keys == Completing(old(keys), recordId, id)
    {
      keys := Completing(keys, recordId, id);
    }

    method CreateNotification(recipient: string, r: Request) returns (id: Result<NotificationId, SubmissionError>)
      modifies this`notifications, this`nextNotificationId
      ensures nextNotificationId == old(nextNotificationId) + 1
      ensures recipient == "" ==> id == Err(RecipientEmpty) && notifications == old(notifications)
      ensures recipient != "" ==>
                && id == Ok(old(nextNotificationId))
                && notifications == old(notifications)[old(nextNotificationId) := Notification(recipient, r)]
    {
      var drawn := nextNotificationId;
      nextNotificationId := nextNotificationId + 1;
      if recipient == "" {
        return Err(RecipientEmpty);
      }
      notifications := notifications[drawn := Notification(recipient, r)];
      id := Ok(drawn);
    }

    /** The whole transaction; an error on the new-request path rolls the tables back. */
    method SubmitNotification(key: IdemKey, r: Request) returns (answer: Result<Submitted, SubmissionError>)
      modifies this
      ensures (Contents(), answer) == Submit(old(Contents()), key, r)
      // whatever the tables held before: an error or a repetition changes neither of them
      ensures answer.Err? || !answer.value.isNewRequest ==> keys == old(keys) && notifications == old(notifications)
      ensures r.channel == Unsupported ==> answer == Err(UnsupportedChannel)
      ensures r.channel != Unsupported && key in old(keys) ==>
                var record := old(keys)[key];
                if record.requestHash != CanonicalHash(r) then answer == Err(HashMismatch)
                else match record.notificationId
                  case None => answer == Err(StillProcessing)
                  case Some(id) =>
                    answer == if id in old(notifications) then Ok(Submitted(id, false)) else Err(InternalInconsistency)
    {
      var savedKeys, savedNotifications := keys, notifications;
      var recipient := ResolveRecipient(r);
      if recipient.Err? {
        return Err(recipient.error);
      }
      var hash := CanonicalHash(r);
      var inserted := InsertIdemKeys(key, hash);
      if inserted.Some? {
        var created := CreateNotification(recipient.value, r);
        if created.Err? {
          keys, notifications := savedKeys, savedNotifications;
          return Err(created.error);
        }
        CompleteIdempotency(inserted.value.id, created.value);
        return Ok(Submitted(created.value, true));
      }
      var existing := GetIdemKeys(key);
      if existing.None? {
        return Err(Unprocessable);
      }
      if existing.value.requestHash != hash {
        return Err(HashMismatch);
      }
      match existing.value.notificationId {
        case None => return Err(StillProcessing);
        case Some(id) =>
          if id !in notifications {
            return Err(InternalInconsistency);
          }
          return Ok(Submitted(id, false));
      }
    }
  }

  // ---------------------------------------------------------------- any sequence of requests

  datatype Call = Call(key: IdemKey, request: Request)

  function StoreAfter(calls: seq<Call>): Store {
    if calls == [] then EMPTY
    else
      var last := calls[|calls| - 1];
      Submit(StoreAfter(calls[..|calls| - 1]), last.key, last.request).0
  }

  function Answer(calls: seq<Call>, i: nat): Result<Submitted, SubmissionError>
    requires i < |calls|
  {
    Submit(StoreAfter(calls[..i]), calls[i].key, calls[i].request).1
  }

  /** A request the tables accept under a fresh key. */
  predicate Acceptable(r: Request) {
    match r.channel
    case Email(to) => to != ""
    case Sms(to) => to != ""
    case Webhook(url) => url != ""
    case Unsupported => false
  }

  /** The first acceptable call under a key: the only one that can create anything. */
  function FirstAccepted(calls: seq<Call>, key: IdemKey): (first: Option<nat>)
    ensures first.Some? ==>
              && first.value < |calls| && calls[first.value].key == key && Acceptable(calls[first.value].request)
              && forall i :: 0 <= i < first.value && calls[i].key == key ==> !Acceptable(calls[i].request)
    ensures first.None? ==> forall i :: 0 <= i < |calls| && calls[i].key == key ==> !Acceptable(calls[i].request)
  {
    if calls == [] then None
    else
      var n := |calls| - 1;
      var before := FirstAccepted(calls[..n], key);
      if before.Some? then before
      else if calls[n].key == key && Acceptable(calls[n].request) then Some(n)
      else None
  }

  /** What an acceptable request stores: the request, under the address it names. */
  function Stored(r: Request): Notification
    requires Acceptable(r)
  {
    match r.channel
    case Email(to) => Notification(to, r)
    case Sms(to) => Notification(to, r)
    case Webhook(url) => Notification(url, r)
  }

  /** The store holds one completed record per key with an acceptable call, and its notification, both as the first such call made them. */
  ghost predicate KeyAgrees(calls: seq<Call>, key: IdemKey) {
    var st := StoreAfter(calls);
    match FirstAccepted(calls, key)
    case None => key !in st.keys
    case Some(f) =>
      && key in st.keys
      && st.keys[key].id < st.nextRecordId
      && st.keys[key].requestHash == CanonicalHash(calls[f].request)
      && Answer(calls, f).Ok? && Answer(calls, f).value.isNewRequest
      && st.keys[key].notificationId == Some(Answer(calls, f).value.id)
      && st.keys[key].status == Completed
      && Answer(calls, f).value.id < st.nextNotificationId
      && Answer(calls, f).value.id in st.notifications
      && var stored := st.notifications[Answer(calls, f).value.id];
         && stored.request == calls[f].request
         && match calls[f].request.channel
            case Email(to) => stored.recipient == to
            case Sms(to) => stored.recipient == to
            case Webhook(url) => stored.recipient == url
            case Unsupported => false
  }

  lemma AnswerPrefix(calls: seq<Call>, n: nat, i: nat)
    requires i < n <= |calls|
    ensures Answer(calls[..n], i) == Answer(calls, i)
  {
    assert calls[..n][..i] == calls[..i];
  }

  /** Once recorded, a key keeps its record whatever is submitted; an unrecorded key is recorded only by its own call. */
  lemma SubmitKeepsRecords(st: Store, submitted: IdemKey, r: Request, key: IdemKey)
    requires key in st.keys ==> st.keys[key].id < st.nextRecordId
    ensures var st' := Submit(st, submitted, r).0;
            && (key in st.keys ==> key in st'.keys && st'.keys[key] == st.keys[key])
            && (key !in st.keys && key in st'.keys ==> key == submitted)
            && st'.nextRecordId >= st.nextRecordId && st'.nextNotificationId >= st.nextNotificationId
            && st.notifications.Keys <= st'.notifications.Keys
            && (forall id | id in st.notifications && id < st.nextNotificationId :: st'.notifications[id] == st.notifications[id])
  {
  }

  /** What the first acceptable call under a fresh key leaves behind. */
  lemma FirstSubmitRecords(st: Store, key: IdemKey, r: Request)
    requires key !in st.keys
    ensures var (st', answer) := Submit(st, key, r);
            if !Acceptable(r) then key !in st'.keys
            else
              && answer == Ok(Submitted(st.nextNotificationId, true))
              && key in st'.keys
              && st'.keys[key] == IdemRecord(st.nextRecordId, CanonicalHash(r), Some(st.nextNotificationId), Completed)
              && st'.nextRecordId == st.nextRecordId + 1 && st'.nextNotificationId == st.nextNotificationId + 1
              && st.nextNotificationId in st'.notifications
              && st'.notifications[st.nextNotificationId] == Stored(r)
  {
  }

  lemma {:induction false} KeysAgree(calls: seq<Call>, key: IdemKey)
    ensures KeyAgrees(calls, key)
    decreases |calls|
  {
    if calls != [] {
      var n := |calls| - 1;
      KeysAgree(calls[..n], key);
      var st := StoreAfter(calls[..n]);
      SubmitKeepsRecords(st, calls[n].key, calls[n].request, key);
      var first := FirstAccepted(calls[..n], key);
      if first.Some? {
        AnswerPrefix(calls, n, first.value);
      } else if calls[n].key == key {
        FirstSubmitRecords(st, key, calls[n].request);
      }
    }
  }

  /**
   Every answer, read off the calls alone. In particular the answers "unable to process", "still
   processing" and "inconsistent" are never given.
  */
  lemma AnswerIsStable(calls: seq<Call>, i: nat)
    requires i < |calls|
    ensures var c := calls[i];
            match FirstAccepted(calls[..i], c.key)
            case None =>
              (match c.request.channel
               case Unsupported => Answer(calls, i) == Err(UnsupportedChannel)
               case Email(to) =>
                 if to == "" then Answer(calls, i) == Err(RecipientEmpty)
                 else Answer(calls, i).Ok? && Answer(calls, i).value.isNewRequest
               case Sms(to) =>
                 if to == "" then Answer(calls, i) == Err(RecipientEmpty)
                 else Answer(calls, i).Ok? && Answer(calls, i).value.isNewRequest
               case Webhook(url) =>
                 if url == "" then Answer(calls, i) == Err(RecipientEmpty)
                 else Answer(calls, i).Ok? && Answer(calls, i).value.isNewRequest)
            case Some(f) =>
              && Answer(calls, f).Ok?
              && (if c.request.channel == Unsupported then Answer(calls, i) == Err(UnsupportedChannel)
                  else if c.request != calls[f].request then Answer(calls, i) == Err(HashMismatch)
                  else Answer(calls, i) == Ok(Submitted(Answer(calls, f).value.id, false)))
  {
    KeysAgree(calls[..i], calls[i].key);
    var first := FirstAccepted(calls[..i], calls[i].key);
    if first.Some? {
      AnswerPrefix(calls, i, first.value);
    }
  }

  lemma SubmitAddsOne(st: Store, key: IdemKey, r: Request)
    requires forall k | k in st.keys :: st.keys[k].id < st.nextRecordId
    ensures var (st', answer) := Submit(st, key, r);
            if answer.Ok? && answer.value.isNewRequest then
              && Acceptable(r) && key !in st.keys && answer.value.id == st.nextNotificationId
              && st'.keys == st.keys[key := IdemRecord(st.nextRecordId, CanonicalHash(r), Some(st.nextNotificationId), Completed)]
              && st'.notifications == st.notifications[st.nextNotificationId := Stored(r)]
            else st'.keys == st.keys && st'.notifications == st.notifications
  {
  }

  /**
   A new request adds its completed record and its notification, under a fresh id, and changes no
   other entry of either table; any other answer leaves both tables as they were.
  */
  lemma OnlyNewRequestsChangeTables(calls: seq<Call>, i: nat)
    requires i < |calls|
    ensures var before, after := StoreAfter(calls[..i]), StoreAfter(calls[..i + 1]);
            if Answer(calls, i).Ok? && Answer(calls, i).value.isNewRequest then
              var id := Answer(calls, i).value.id;
              && calls[i].key !in before.keys && id !in before.notifications && Acceptable(calls[i].request)
              && after.keys
                 == before.keys[calls[i].key :=
                                IdemRecord(before.nextRecordId, CanonicalHash(calls[i].request), Some(id), Completed)]
              && id in after.notifications && after.notifications[id].request == calls[i].request
              && (match calls[i].request.channel
                  case Email(to) => after.notifications[id].recipient == to
                  case Sms(to) => after.notifications[id].recipient == to
                  case Webhook(url) => after.notifications[id].recipient == url
                  case Unsupported => false)
              && after.notifications == before.notifications[id := after.notifications[id]]
            else after.keys == before.keys && after.notifications == before.notifications
  {
    var st := StoreAfter(calls[..i]);
    assert calls[..i + 1][..i] == calls[..i];
    NotificationIdsAreDrawn(calls[..i]);
    forall key | key in st.keys
      ensures st.keys[key].id < st.nextRecordId
    {
      KeysAgree(calls[..i], key);
    }
    SubmitAddsOne(st, calls[i].key, calls[i].request);
  }

  lemma {:induction false} NotificationIdsAreDrawn(calls: seq<Call>)
    ensures forall id | id in StoreAfter(calls).notifications :: id < StoreAfter(calls).nextNotificationId
    decreases |calls|
  {
    if calls != [] {
      NotificationIdsAreDrawn(calls[..|calls| - 1]);
    }
  }

  /** One notification per recorded key, after any sequence of requests. */
  lemma {:induction false} OneNotificationPerKey(calls: seq<Call>)
    ensures |StoreAfter(calls).notifications| == |StoreAfter(calls).keys|
    decreases |calls|
  {
    if calls != [] {
      var n := |calls| - 1;
      OneNotificationPerKey(calls[..n]);
      OnlyNewRequestsChangeTables(calls, n);
      assert calls[..n + 1] == calls;
    }
  }

  lemma {:induction false} StoresOnlyGrow(calls: seq<Call>, i: nat, j: nat)
    requires i <= j <= |calls|
    ensures StoreAfter(calls[..i]).notifications.Keys <= StoreAfter(calls[..j]).notifications.Keys
    decreases j
  {
    if i < j {
      StoresOnlyGrow(calls, i, j - 1);
      OnlyNewRequestsChangeTables(calls, j - 1);
    }
  }

  /**
   Only a new request is enqueued, and no two new requests share a key or a notification: the API
   enqueues each notification at most once.
  */
  lemma EnqueuedAtMostOnce(calls: seq<Call>, i: nat, j: nat)
    requires i < j < |calls|
    requires Answer(calls, i).Ok? && Answer(calls, i).value.isNewRequest
    requires Answer(calls, j).Ok? && Answer(calls, j).value.isNewRequest
    ensures calls[i].key != calls[j].key
    ensures Answer(calls, i).value.id != Answer(calls, j).value.id
  {
    AnswerIsStable(calls, i);
    AnswerIsStable(calls, j);
    OnlyNewRequestsChangeTables(calls, i);
    OnlyNewRequestsChangeTables(calls, j);
    StoresOnlyGrow(calls, i + 1, j);
  }
}
