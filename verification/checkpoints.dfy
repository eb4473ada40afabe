/**
 * The checkpoint store: one document per (input, account) holding the watermark,
 * that is, the end of the last window ingested, and the window calculator that reads it.
 */
module Checkpoints {
  import opened Wrappers
  import opened Timestamps

  /** A stored checkpoint document: field name to stored text. */
  type Document = map<string, string>

  /** The whole KV-store collection: checkpoint key to document. */
  type Records = map<string, Document>

  const LAST_END_DATE: string := "last_end_date"
  const UPDATED_AT: string := "updated_at"
  const KEY_SUFFIX: string := "_last_end_date"

  /** The key under which the checkpoint of `inputName` reading from `accountName` is stored. */
  function CheckpointKey(inputName: string, accountName: string): (key: string)
    ensures |key| == |inputName| + 1 + |accountName| + |KEY_SUFFIX|
    ensures forall i :: 0 <= i < |inputName| ==> key[i] == inputName[i]
    ensures key[|inputName|] == '_'
    ensures forall i :: 0 <= i < |accountName| ==> key[|inputName| + 1 + i] == accountName[i]
    ensures forall i :: 0 <= i < |KEY_SUFFIX| ==> key[|inputName| + 1 + |accountName| + i] == KEY_SUFFIX[i]
  {
    inputName + "_" + accountName + KEY_SUFFIX
  }

  /**
   * Different inputs, or one input with different accounts, never share a checkpoint,
   * provided input names do not contain '_' (account names may).
   */
  lemma CheckpointKeyInjective(input1: string, account1: string, input2: string, account2: string)
    requires '_' !in input1 && '_' !in input2
    requires CheckpointKey(input1, account1) == CheckpointKey(input2, account2)
    ensures input1 == input2 && account1 == account2
  {
    var key := CheckpointKey(input1, account1);
    assert |input1| == |input2| by {
      if |input1| < |input2| {
        assert false;
      } else if |input2| < |input1| {
        assert false;
      }
    }
    assert |account1| == |account2|;
    assert input1 == input2 by {
      forall i | 0 <= i < |input1|
        ensures input1[i] == input2[i]
      {
        assert input1[i] == key[i];
      }
    }
    assert account1 == account2 by {
      forall i | 0 <= i < |account1|
        ensures account1[i] == account2[i]
      {
        assert account1[i] == key[|input1| + 1 + i];
      }
    }
  }

  /** Without that proviso the key is not unique: two different pairs share one checkpoint. */
  lemma CheckpointKeyCollision()
    ensures ("a_b", "c") != ("a", "b_c")
    ensures CheckpointKey("a_b", "c") == CheckpointKey("a", "b_c")
  {
  }

  /**
   * The watermark recorded under `key`, if there is one: the document exists, has the
   * `last_end_date` field and its text decodes.
   */
  function StoredEndDate(records: Records, key: string): Option<int> {
    if key in records && LAST_END_DATE in records[key] then Decode(records[key][LAST_END_DATE]) else None
  }

  /**
   * The start of the next window: the recorded watermark, or `now` minus 90 days when there
   * is none or it does not parse. It is total: a missing or corrupt checkpoint is never an error.
   */
  function LastEndDate(records: Records, key: string, now: int): (start: int)
    ensures key !in records ==> start == now - FALLBACK_WINDOW
    ensures key in records && LAST_END_DATE !in records[key] ==> start == now - FALLBACK_WINDOW
    ensures key in records && LAST_END_DATE in records[key] && Decode(records[key][LAST_END_DATE]).None?
            ==> start == now - FALLBACK_WINDOW
    ensures key in records && LAST_END_DATE in records[key] && Decode(records[key][LAST_END_DATE]).Some?
            ==> start == Decode(records[key][LAST_END_DATE]).value
  {
    StoredEndDate(records, key).GetOr(now - FALLBACK_WINDOW)
  }

  /** The document written at the end of a run that covered the window ending at `endDate`. */
  function SaveRecord(endDate: int, updatedAt: int): (doc: Document)
    ensures doc.Keys == {LAST_END_DATE, UPDATED_AT}
  {
    map[LAST_END_DATE := Encode(endDate), UPDATED_AT := Encode(updatedAt)]
  }

  /** The saved fields read back as the window's end and as the reading taken when saving. */
  lemma SaveRecordValues(endDate: int, updatedAt: int)
    ensures Decode(SaveRecord(endDate, updatedAt)[LAST_END_DATE]) == Some(endDate)
    ensures Decode(SaveRecord(endDate, updatedAt)[UPDATED_AT]) == Some(updatedAt)
  {
    DecodeEncode(endDate);
    DecodeEncode(updatedAt);
  }

  /** After a save, the next run starts exactly where the saved window ended, whatever the clock says. */
  lemma ReadAfterSave(records: Records, key: string, endDate: int, updatedAt: int, now: int)
    ensures StoredEndDate(records[key := SaveRecord(endDate, updatedAt)], key) == Some(endDate)
    ensures LastEndDate(records[key := SaveRecord(endDate, updatedAt)], key, now) == endDate
  {
    DecodeEncode(endDate);
  }

  /** A save under one key leaves the window of every other key as it was. */
  lemma SaveKeepsOtherKeys(records: Records, key: string, other: string, doc: Document, now: int)
    requires other != key
    ensures StoredEndDate(records[key := doc], other) == StoredEndDate(records, other)
    ensures LastEndDate(records[key := doc], other, now) == LastEndDate(records, other, now)
  {
  }

  /** A watermark field whose text is not a date reads as no watermark at all. */
  lemma MalformedFallsBack(records: Records, key: string, now: int)
    requires key in records && LAST_END_DATE in records[key]
    requires Decode(records[key][LAST_END_DATE]).None?
    ensures StoredEndDate(records, key) == None
    ensures LastEndDate(records, key, now) == now - FALLBACK_WINDOW
  {
  }

  /** For instance, a watermark reading "yesterday" is not a date. */
  lemma YesterdayIsNotADate()
    ensures Decode("yesterday") == None
  {
    assert !IsDigit("yesterday"[1]);
  }

  /** The checkpoint collection in the KV store. */
  class CheckpointStore {
    var records: Records

    constructor (records: Records)
      ensures this.records == records
    {
      this.records := records;
    }

    /** `ckpt.update(key, document)`: the document under `key` is replaced, nothing else changes. */
    method Update(key: string, document: Document)
      modifies this
      ensures records == old(records)[key := document]
    {
      records := records[key := document];
    }
  }

  /** How many clock readings computing the start of the window takes: one only when it falls back. */
  function StartReadings(records: Records, key: string): nat {
    if StoredEndDate(records, key).Some? then 0 else 1
  }

  /**
   * `get_last_end_date`: reads the watermark, and only when it is unusable reads the clock
   * to fall back to 90 days ago.
   */
  method GetLastEndDate(store: CheckpointStore, clock: Clock, key: string) returns (start: int)
    modifies clock
    ensures start == LastEndDate(store.records, key, clock.reading(old(clock.taken)))
    ensures clock.taken == old(clock.taken) + StartReadings(store.records, key)
  {
    var stored := StoredEndDate(store.records, key);
    if stored.Some? {
      start := stored.value;
    } else {
      var now := clock.UtcNow();
      start := now - FALLBACK_WINDOW;
    }
  }

  /**
   * The window of a run: from the watermark (or 90 days before the first reading) up to the
   * reading taken right after it, which becomes `end_date`.
   */
  method OpenWindow(store: CheckpointStore, clock: Clock, key: string) returns (start: int, end: int)
    modifies clock
    ensures start == LastEndDate(store.records, key, clock.reading(old(clock.taken)))
    ensures clock.taken == old(clock.taken) + StartReadings(store.records, key) + 1
    ensures end == clock.reading(clock.taken - 1)
  {
    start := GetLastEndDate(store, clock, key);
    end := clock.UtcNow();
  }

  /** `save_checkpoint`: stores `endDate` as the watermark, stamped with a fresh clock reading. */
  method SaveCheckpoint(store: CheckpointStore, clock: Clock, key: string, endDate: int)
    modifies store, clock
    ensures store.records == old(store.records)[key := SaveRecord(endDate, clock.reading(old(clock.taken)))]
    ensures clock.taken == old(clock.taken) + 1
  {
    var updatedAt := clock.UtcNow();
    store.Update(key, SaveRecord(endDate, updatedAt));
  }
}
