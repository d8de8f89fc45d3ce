/**
 * The log controller (backend/controllers/logController.js): `createLog`
 * validates and appends one document, `getLogs` returns every document
 * newest first. The router exposes nothing else, so the store is append-only.
 */
module LogController {
  import opened Wrappers
  import opened Json
  import opened LogSchema

  /** The Log collection: documents in insertion order and the next id to hand out. */
  datatype Store = Store(entries: seq<LogEntry>, nextId: nat)

  datatype ReplyBody = Created(message: string, log: LogEntry) | Failed(message: string) | Listed(logs: seq<LogEntry>)

  /** An HTTP status and the JSON the handler sends. */
  datatype Reply = Reply(status: int, body: ReplyBody)

  /** Document ids are distinct and below the next id. */
  predicate StoreValid(s: Store) {
    && (forall i :: 0 <= i < |s.entries| ==> s.entries[i].id < s.nextId)
    && (forall i, j :: 0 <= i < j < |s.entries| ==> s.entries[i].id != s.entries[j].id)
  }

  /** Appending an entry that carries the next id keeps the ids distinct and below the new next id. */
  lemma AppendKeepsValid(s: Store, entry: LogEntry)
    requires entry.id == s.nextId
    ensures StoreValid(s) ==> StoreValid(Store(s.entries + [entry], s.nextId + 1))
  {
  }

  /**
   * `createLog`: the document is built from the five schema fields of the body,
   * validated, then saved with the clock reading `now`; `fault` is an error the
   * database raises on save. Every failure is a 500 carrying the error's message.
   */
  function CreateLogStep(s: Store, body: Body, now: int, fault: Option<string>): (res: (Reply, Store))
    ensures res.0.status == 201 <==> Validate(body).Success? && fault.None?
    ensures res.0.status == 201 ==>
      && res.1.entries == s.entries + [NewEntry(Validate(body).value, s.nextId, now)]
      && res.0.body == Created("Log created", res.1.entries[|s.entries|])
    ensures res.0.status != 201 ==> res.0.status == 500 && res.0.body.Failed? && res.1 == s
    ensures Validate(body).Failure? ==> res.0.body == Failed(ValidationMessage(Validate(body).error))
    ensures Validate(body).Success? && fault.Some? ==> res == (Reply(500, Failed(fault.value)), s)
    ensures s.entries <= res.1.entries
    ensures StoreValid(s) ==> StoreValid(res.1)
  {
    match Validate(body)
    case Failure(errors) => (Reply(500, Failed(ValidationMessage(errors))), s)
    case Success(fields) =>
      if fault.Some? then (Reply(500, Failed(fault.value)), s)
      else
        var entry := NewEntry(fields, s.nextId, now);
        AppendKeepsValid(s, entry);
        (Reply(201, Created("Log created", entry)), Store(s.entries + [entry], s.nextId + 1))
  }

  /** Newest first: `createdAt` never increases along the sequence. */
  predicate NewestFirst(s: seq<LogEntry>) {
    forall i, j :: 0 <= i < j < |s| ==> s[i].createdAt >= s[j].createdAt
  }

  /** Putting an entry no older than the head in front keeps a sequence newest first. */
  lemma PrependNewestFirst(x: LogEntry, s: seq<LogEntry>)
    requires NewestFirst(s)
    requires s == [] || x.createdAt >= s[0].createdAt
    ensures NewestFirst([x] + s)
  {
    var r := [x] + s;
    forall i, j | 0 <= i < j < |r| ensures r[i].createdAt >= r[j].createdAt {
      if i > 0 {
        assert r[i] == s[i - 1] && r[j] == s[j - 1];
      } else {
        assert r[j] == s[j - 1];
      }
    }
  }

  lemma ConsMultiset(x: LogEntry, rest: seq<LogEntry>, s: seq<LogEntry>, e: LogEntry)
    requires s != [] && x == s[0]
    requires multiset(rest) == multiset(s[1..]) + multiset{e}
    ensures multiset([x] + rest) == multiset(s) + multiset{e}
  {
    assert s == [s[0]] + s[1..];
  }

  /** Places `e` before the first entry that is not newer than it. */
  function InsertNewestFirst(e: LogEntry, s: seq<LogEntry>): (r: seq<LogEntry>)
    requires NewestFirst(s)
    ensures NewestFirst(r)
    ensures multiset(r) == multiset(s) + multiset{e}
    ensures r[0] == e || (s != [] && r[0] == s[0])
  {
    if s == [] || e.createdAt >= s[0].createdAt then
      PrependNewestFirst(e, s);
      [e] + s
    else
      var rest := InsertNewestFirst(e, s[1..]);
      assert |s| > 1 ==> s[0].createdAt >= s[1].createdAt;
      assert s[1..] != [] ==> s[1..][0] == s[1];
      PrependNewestFirst(s[0], rest);
      ConsMultiset(s[0], rest, s, e);
      [s[0]] + rest
  }

  /** The listing's sort, descending on `createdAt`; entries with equal timestamps keep their stored order. */
  function SortNewestFirst(s: seq<LogEntry>): (r: seq<LogEntry>)
    ensures NewestFirst(r)
    ensures multiset(r) == multiset(s)
  {
    if s == [] then []
    else
      assert s == [s[0]] + s[1..];
      InsertNewestFirst(s[0], SortNewestFirst(s[1..]))
  }

  /** `getLogs`: every stored document, newest first, or a 500 when the query fails. */
  function GetLogsReply(s: Store, fault: Option<string>): (r: Reply)
    ensures fault.None? ==> r.status == 200 && r.body.Listed?
    ensures r.body.Listed? ==> NewestFirst(r.body.logs) && multiset(r.body.logs) == multiset(s.entries)
    ensures fault.Some? ==> r == Reply(500, Failed(fault.value))
  {
    if fault.Some? then Reply(500, Failed(fault.value)) else Reply(200, Listed(SortNewestFirst(s.entries)))
  }

  /** A document that `createLog` accepted is in every later listing. */
  lemma CreatedLogIsListed(s: Store, body: Body, now: int)
    requires CreateLogStep(s, body, now, None).0.status == 201
    ensures CreateLogStep(s, body, now, None).0.body.log in GetLogsReply(CreateLogStep(s, body, now, None).1, None).body.logs
  {
    var (reply, s') := CreateLogStep(s, body, now, None);
    assert reply.body.log == s'.entries[|s.entries|];
    assert reply.body.log in multiset(s'.entries);
  }

  /** The Log collection behind the two routes. */
  class LogCollection {
    var entries: seq<LogEntry>
    var nextId: nat

    function State(): Store
      reads this
    {
      Store(entries, nextId)
    }

    predicate Valid()
      reads this
    {
      StoreValid(State())
    }

    constructor ()
      ensures Valid() && entries == []
    {
      entries := [];
      nextId := 0;
    }

    /** POST /create */
    method CreateLog(body: Body, now: int, fault: Option<string>) returns (reply: Reply)
      requires Valid()
      modifies this
      ensures Valid()
      ensures (reply, State()) == CreateLogStep(old(State()), body, now, fault)
      ensures old(entries) <= entries
    {
      ghost var s0 := State();
      var validated := Validate(body);
      if validated.Failure? {
        reply := Reply(500, Failed(ValidationMessage(validated.error)));
        assert (reply, s0) == CreateLogStep(s0, body, now, fault);
        return;
      }
      if fault.Some? {
        reply := Reply(500, Failed(fault.value));
        assert (reply, s0) == CreateLogStep(s0, body, now, fault);
        return;
      }
      var log := NewEntry(validated.value, nextId, now);
      AppendKeepsValid(s0, log);
      entries := entries + [log];
      nextId := nextId + 1;
      reply := Reply(201, Created("Log created", log));
      assert (reply, State()) == CreateLogStep(s0, body, now, fault);
    }

    /** GET / */
    method GetLogs(fault: Option<string>) returns (reply: Reply)
      ensures reply == GetLogsReply(State(), fault)
      ensures fault.None? ==> reply.status == 200
      ensures reply.body.Listed? ==> NewestFirst(reply.body.logs) && multiset(reply.body.logs) == multiset(entries)
    {
      if fault.Some? {
        return Reply(500, Failed(fault.value));
      }
      var logs := SortNewestFirst(entries);
      reply := Reply(200, Listed(logs));
    }
  }
}
