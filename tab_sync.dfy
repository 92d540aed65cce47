/** Cross-tab signalling of the dashboard: what a tab sends after a successful mutation, and the
    filters its three listeners apply before they reload. */
module TabSync {
  import opened Wrappers

  const TabSyncKey := "smart-bookmark-sync"
  const TabSyncChannel := "smart-bookmark-sync-channel"

  /** The sync payload `{ userId, timestamp }`. The timestamp is diagnostic only: no listener
      reads it, so it is left out. */
  datatype SyncPayload = SyncPayload(userId: string)

  /** A signal a tab emits: a BroadcastChannel message or a localStorage write of the payload
      (serialised with JSON.stringify). */
  datatype Signal = Broadcast(channel: string, payload: SyncPayload) | StorageWrite(key: string, payload: SyncPayload)

  /** What `JSON.parse(newValue)` followed by reading `.userId` yields in the storage listener:
      Malformed when JSON.parse throws, and also when the value is JSON `null`, because reading a
      property of null throws inside the same `try`; otherwise the `userId` property when it is a
      string, and None when it is absent or of another type. */
  datatype StoredSignal = Malformed | Parsed(userId: Option<string>)

  /** JSON.parse on a stored value, followed by the `.userId` read. */
  type SignalReader = string -> StoredSignal

  /** JSON.stringify on a payload. */
  type SignalWriter = SyncPayload -> string

  /** notifyOtherTabs: a broadcast when the browser has BroadcastChannel, then a storage write.
      Both carry the tab's own user id. */
  function NotifyOtherTabs(userId: string, hasBroadcastChannel: bool): (sigs: seq<Signal>)
    ensures |sigs| == if hasBroadcastChannel then 2 else 1
    ensures forall k :: 0 <= k < |sigs| ==> sigs[k].payload == SyncPayload(userId)
    ensures sigs[|sigs| - 1] == StorageWrite(TabSyncKey, SyncPayload(userId))
    ensures hasBroadcastChannel ==> sigs[0] == Broadcast(TabSyncChannel, SyncPayload(userId))
  {
    var payload := SyncPayload(userId);
    (if hasBroadcastChannel then [Broadcast(TabSyncChannel, payload)] else [])
      + [StorageWrite(TabSyncKey, payload)]
  }

  /** The storage listener reloads: the event's key is the sync key, its new value is a non-empty
      string (`!event.newValue` also rejects ""), the value parses and its `userId` is this tab's. */
  predicate StorageEventWakes(key: Option<string>, newValue: Option<string>, read: SignalReader, userId: string) {
    && key == Some(TabSyncKey)
    && newValue.Some? && newValue.value != ""
    && read(newValue.value) == Parsed(Some(userId))
  }

  /** The BroadcastChannel listener reloads when `event.data?.userId` is this tab's user id;
      `dataUserId` is that property when it is a string. */
  predicate BroadcastWakes(dataUserId: Option<string>, userId: string) {
    dataUserId == Some(userId)
  }

  /** A malformed stored value, a cleared slot (null new value) or another key never wakes a tab. */
  lemma StorageListenerIgnoresNoise(key: Option<string>, newValue: Option<string>, read: SignalReader, userId: string)
    ensures key != Some(TabSyncKey) ==> !StorageEventWakes(key, newValue, read, userId)
    ensures newValue.None? ==> !StorageEventWakes(key, newValue, read, userId)
    ensures newValue.Some? && read(newValue.value) == Malformed ==> !StorageEventWakes(key, newValue, read, userId)
  {
  }

  /** Whether `sig`, once delivered to a tab of `receiver` (the broadcast as a message on its
      channel, the write as a storage event carrying the serialised payload), makes it reload. */
  predicate Wakes(sig: Signal, receiver: string, read: SignalReader, write: SignalWriter) {
    match sig
    case Broadcast(channel, payload) => channel == TabSyncChannel && BroadcastWakes(Some(payload.userId), receiver)
    case StorageWrite(key, payload) => StorageEventWakes(Some(key), Some(write(payload)), read, receiver)
  }

  /** Every signal a tab of `sender` sends wakes a tab of `receiver` exactly when they are the
      same user, given that JSON.parse reads back what JSON.stringify wrote (a serialised object is
      never the empty string). */
  lemma NotifyWakesExactlySameUser(sender: string, receiver: string, hasBroadcastChannel: bool,
                                   read: SignalReader, write: SignalWriter)
    requires write(SyncPayload(sender)) != ""
    requires read(write(SyncPayload(sender))) == Parsed(Some(sender))
    ensures forall k :: 0 <= k < |NotifyOtherTabs(sender, hasBroadcastChannel)| ==>
      (Wakes(NotifyOtherTabs(sender, hasBroadcastChannel)[k], receiver, read, write) <==> sender == receiver)
  {
    var sigs := NotifyOtherTabs(sender, hasBroadcastChannel);
    forall k | 0 <= k < |sigs|
      ensures Wakes(sigs[k], receiver, read, write) <==> sender == receiver
    {
      if hasBroadcastChannel && k == 0 {
        assert sigs[k] == Broadcast(TabSyncChannel, SyncPayload(sender));
      } else {
        assert sigs[k] == StorageWrite(TabSyncKey, SyncPayload(sender));
      }
    }
  }
}
