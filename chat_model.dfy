/** The `GPT` collection (backend/models/GPT.js), which both AI controllers write: one record
    per answered prompt, kept in insertion order. */
module ChatModel {
  import opened Db

  datatype ChatRecord = ChatRecord(prompt: string, response: string, user: Id)

  /** The schema's `required` validators: no empty prompt, no empty response. */
  predicate Storable(r: ChatRecord) {
    r.prompt != "" && r.response != ""
  }

  /** `countDocuments({ user })` */
  function CountFor(records: seq<ChatRecord>, user: Id): (c: nat)
    ensures c <= |records|
  {
    if records == [] then 0
    else CountFor(records[..|records| - 1], user) + (if records[|records| - 1].user == user then 1 else 0)
  }

  /** A record as the history shows it: `select('prompt response createdAt')` (the
      timestamp is not modelled). */
  datatype ChatEntry = ChatEntry(prompt: string, response: string)

  /** `find({ user }).sort({ createdAt: -1 })`: the user's records, newest first. */
  function HistoryOf(records: seq<ChatRecord>, user: Id): (h: seq<ChatEntry>)
    ensures |h| == CountFor(records, user)
  {
    if records == [] then []
    else
      var last := records[|records| - 1];
      (if last.user == user then [ChatEntry(last.prompt, last.response)] else [])
      + HistoryOf(records[..|records| - 1], user)
  }

  /** A new record goes to the front of its user's history, and leaves other users'
      histories alone. */
  lemma {:induction false} HistoryAfterSave(records: seq<ChatRecord>, r: ChatRecord, user: Id)
    ensures HistoryOf(records + [r], user)
            == (if r.user == user then [ChatEntry(r.prompt, r.response)] else []) + HistoryOf(records, user)
    ensures CountFor(records + [r], user) == CountFor(records, user) + (if r.user == user then 1 else 0)
  {
    assert (records + [r])[..|records + [r]| - 1] == records;
  }

  /** Counting distributes over concatenation: the count of a log is the sum of the counts
      of its parts. */
  lemma {:induction false} CountForConcat(a: seq<ChatRecord>, b: seq<ChatRecord>, user: Id)
    ensures CountFor(a + b, user) == CountFor(a, user) + CountFor(b, user)
    decreases |b|
  {
    if b == [] {
      assert a + b == a;
    } else {
      var init := b[..|b| - 1];
      assert (a + b)[..|a + b| - 1] == a + init;
      assert (a + b)[|a + b| - 1] == b[|b| - 1];
      CountForConcat(a, init, user);
    }
  }

  /** The collection. */
  class ChatLog {
    var records: seq<ChatRecord>

    constructor ()
      ensures records == []
    {
      records := [];
    }

    /** `new GPT(record).save()`: stored at the end when the validators pass. */
    method Save(r: ChatRecord) returns (saved: bool)
      modifies this
      ensures saved <==> Storable(r)
      ensures records == if saved then old(records) + [r] else old(records)
    {
      saved := Storable(r);
      if saved {
        records := records + [r];
      }
    }
  }
}
