/**
 The write requests of both front ends, over whole operations: conditional PUT, DELETE, and the MCP
 tools that create, update and delete events.

 A request is refused, or it becomes one store operation. Along any run, one specific If-Match etag is
 accepted at most once, and the index columns of every row agree with the row's text.
 */
module Requests {
  import opened Wrappers
  import opened Schema
  import opened Operations
  import opened Validators
  import opened Strings
  import opened ICalParser
  import opened ICalBuilder
  import opened EventRoundTrip
  import Interleaving

  /** The body of a PUT, after the size limit and the UTF-8 check. */
  datatype RequestBody = Content(data: string) | TooLarge | NotUtf8

  datatype Request =
    | Put(c: string, filename: string, ifMatch: Option<string>, body: RequestBody, ids: UpsertIds)
    | CreateEvent(c: string, args: EventArgs, now: string, ids: UpsertIds)
    | UpdateEvent(c: string, args: EventArgs, now: string, ids: UpsertIds)
    | DeleteEvent(c: string, u: string, log: Uuid, bump: Uuid)
    | Administer(op: Op)

  const ICS := ".ics"

  /** Strip every trailing `.ics`. */
  function TrimIcs(s: string): string
    decreases |s|
  {
    if |s| >= 4 && s[|s| - 4..] == ICS then TrimIcs(s[..|s| - 4]) else s
  }

  predicate EndsInIcs(s: string) { |s| >= 4 && s[|s| - 4..] == ".ics" }

  /** `.ics` so many times. */
  function Suffixes(n: nat): string { if n == 0 then "" else Suffixes(n - 1) + ".ics" }

  /** Trimming leaves a text that does not end in `.ics`, and takes nothing but repetitions of that away. */
  lemma {:induction false} TrimIcsIs(s: string) returns (n: nat)
    ensures !EndsInIcs(TrimIcs(s)) && s == TrimIcs(s) + Suffixes(n)
    decreases |s|
  {
    if EndsInIcs(s) {
      n := TrimIcsIs(s[..|s| - 4]);
      assert s == s[..|s| - 4] + ".ics";
      n := n + 1;
    } else {
      n := 0;
    }
  }

  /** So the file names of a uid that does not end in `.ics` give back the uid. */
  lemma {:induction false} TrimIcsOf(u: string, n: nat)
    requires !EndsInIcs(u)
    ensures TrimIcs(u + Suffixes(n)) == u
  {
    var name := u + Suffixes(n);
    if n == 0 {
      assert name == u;
    } else {
      assert name[..|name| - 4] == u + Suffixes(n - 1) && name[|name| - 4..] == ".ics";
      TrimIcsOf(u, n - 1);
    }
  }

  lemma {:induction false} TrimFileName(u: string)
    requires !EndsInIcs(u)
    ensures TrimIcs(u + ".ics") == u
  {
    assert Suffixes(1) == Suffixes(0) + ".ics" == ".ics";
    TrimIcsOf(u, 1);
  }

  function Columns(f: IcalFields): ObjectFields {
    ObjectFields(f.componentType, f.dtstart, f.dtend, f.summary)
  }

  /** The uid of a PUT: the one in the text, else the file name. */
  function PutUid(filename: string, data: string): string {
    match FieldsOf(data).uid case Some(u) => u case None => TrimIcs(filename)
  }

  /** A PUT names its object by the uid in the text; without one, a file name `u.ics` names `u`. */
  lemma {:induction false} PutUidIs(u: string, data: string)
    ensures FieldsOf(data).uid.Some? ==> PutUid(u, data) == FieldsOf(data).uid.value
    ensures FieldsOf(data).uid.None? && !EndsInIcs(u) ==> PutUid(u + ".ics", data) == u
  {
    if !EndsInIcs(u) { TrimFileName(u); }
  }

  /** The If-Match decision: `*` and an absent header admit anything. */
  predicate PreconditionHolds(db: Db, c: string, u: string, ifMatch: Option<string>) {
    ifMatch.None? || ifMatch == Some("*") ||
    ((c, u) in db.objects && db.objects[(c, u)].etag == ifMatch.value)
  }

  /** The decision on whole requests is the one that the statements of an upsert take. */
  lemma {:induction false} PreconditionIsAdmitted(db: Db, c: string, u: string, ifMatch: Option<string>, data: string,
      fields: ObjectFields, ids: UpsertIds)
    ensures PreconditionHolds(db, c, u, ifMatch) <==>
            Interleaving.Admitted(db, Interleaving.Upserting(ifMatch, c, u, data, fields, ids))
  {
  }

  function EventOp(c: string, args: EventArgs, now: string, ids: UpsertIds): Op {
    Upsert(c, args.uid, VeventText(args, now),
           ObjectFields("VEVENT", Some(args.dtstart), Some(args.dtend), Some(args.summary)), ids)
  }

  /** The store operation of a request, or None when the request is refused before it writes. */
  function Lower(db: Db, r: Request): Option<Op> {
    match r
    case Put(c, filename, ifMatch, body, ids) =>
      if body.Content? && PreconditionHolds(db, c, PutUid(filename, body.data), ifMatch) then
        Some(Upsert(c, PutUid(filename, body.data), body.data, Columns(FieldsOf(body.data)), ids))
      else None
    case CreateEvent(c, args, now, ids) => Some(EventOp(c, args, now, ids))
    case UpdateEvent(c, args, now, ids) =>
      if (c, args.uid) in db.objects then Some(EventOp(c, args, now, ids)) else None
    case DeleteEvent(c, u, log, bump) => Some(Delete(c, u, log, bump))
    case Administer(op) => Some(op)
  }

  function Perform(db: Db, r: Request): Db {
    match Lower(db, r) case Some(op) => Apply(db, op) case None => db
  }

  /** Calendar and share administration goes through its own operations, never through raw object writes. */
  ghost predicate Enabled(db: Db, r: Request) {
    && (r.Administer? ==> !r.op.Upsert? && !r.op.Delete?)
    && (Lower(db, r).Some? ==> Fresh(db, Lower(db, r).value))
  }

  ghost predicate ValidRequests(db: Db, rs: seq<Request>)
    decreases |rs|
  {
    rs == [] || (Enabled(db, rs[0]) && ValidRequests(Perform(db, rs[0]), rs[1..]))
  }

  function RunRequests(db: Db, rs: seq<Request>): Db
    decreases |rs|
  {
    if rs == [] then db else RunRequests(Perform(db, rs[0]), rs[1..])
  }

  /** The store operations behind a run of requests. */
  function OpsOf(db: Db, rs: seq<Request>): seq<Op>
    decreases |rs|
  {
    if rs == [] then []
    else (match Lower(db, rs[0]) case Some(op) => [op] case None => []) + OpsOf(Perform(db, rs[0]), rs[1..])
  }

  /** A run of requests is a run of store operations, so everything proved of those holds of it. */
  lemma {:induction false} RequestsAreOps(db: Db, rs: seq<Request>)
    requires ValidRequests(db, rs)
    ensures ValidRun(db, OpsOf(db, rs)) && Run(db, OpsOf(db, rs)) == RunRequests(db, rs)
    decreases |rs|
  {
    if rs != [] {
      RequestsAreOps(Perform(db, rs[0]), rs[1..]);
      var rest := OpsOf(Perform(db, rs[0]), rs[1..]);
      match Lower(db, rs[0])
      case Some(op) => assert ([op] + rest)[1..] == rest;
      case None => assert [] + rest == rest;
    }
  }

  lemma {:induction false} RequestsSplit(db: Db, rs: seq<Request>, i: nat)
    requires i <= |rs| && ValidRequests(db, rs)
    ensures ValidRequests(db, rs[..i]) && ValidRequests(RunRequests(db, rs[..i]), rs[i..])
    ensures RunRequests(RunRequests(db, rs[..i]), rs[i..]) == RunRequests(db, rs)
    decreases |rs|
  {
    if i > 0 {
      assert rs[..i][1..] == rs[1..][..i - 1] && rs[i..] == rs[1..][i - 1..];
      RequestsSplit(Perform(db, rs[0]), rs[1..], i - 1);
    } else {
      assert rs[..0] == [] && rs[0..] == rs;
    }
  }

  // Lost updates -----------------------------------------------------------------------------------------------

  predicate Conditional(r: Request, e: string) {
    r.Put? && r.ifMatch == Some(e) && e != "*"
  }

  /** An accepted conditional PUT replaces exactly the version with its etag, and retires that etag. */
  lemma {:induction false} AcceptedPutReplaces(db: Db, r: Request, e: string)
    requires Integrity(db) && Stamped(db) && Enabled(db, r)
    requires Conditional(r, e) && Lower(db, r).Some?
    ensures var k := (r.c, PutUid(r.filename, r.body.data));
            && k in db.objects && db.objects[k].etag == e
            && Perform(db, r).objects.Keys == db.objects.Keys
            && (forall k' :: k' in db.objects && k' != k ==> Perform(db, r).objects[k'] == db.objects[k'])
            && Perform(db, r).objects[k].icalData == r.body.data
    ensures forall k :: k in Perform(db, r).objects ==> Perform(db, r).objects[k].etag != e
    ensures e in Etags(Perform(db, r).used)
  {
    var op := Lower(db, r).value;
    assert DrawnBy(op)[1] == op.ids.etag;
    FreshEtag(db.used, op.ids.etag);
    assert Etags(db.used) <= Etags(Perform(db, r).used);
  }

  /** A run of requests around position `i`. */
  lemma {:induction false} RequestsAround(db: Db, rs: seq<Request>, i: nat, j: nat)
    requires i < j <= |rs| && ValidRequests(db, rs)
    ensures ValidRequests(db, rs[..i])
    ensures var before := RunRequests(db, rs[..i]);
            var after := Perform(before, rs[i]);
            && Enabled(before, rs[i]) && ValidRequests(after, rs[i + 1..j])
            && RunRequests(db, rs[..j]) == RunRequests(after, rs[i + 1..j])
  {
    RequestsSplit(db, rs, j);
    RequestsSplit(db, rs[..j], i);
    assert rs[..j][..i] == rs[..i] && rs[..j][i..] == [rs[i]] + rs[i + 1..j];
    assert ([rs[i]] + rs[i + 1..j])[1..] == rs[i + 1..j];
  }

  lemma {:induction false} EtagGoneAfterPut(db: Db, r: Request, e: string, between: seq<Request>)
    requires Integrity(db) && Stamped(db) && Enabled(db, r)
    requires Conditional(r, e) && Lower(db, r).Some? && ValidRequests(Perform(db, r), between)
    ensures var later := RunRequests(Perform(db, r), between);
            forall k :: k in later.objects ==> later.objects[k].etag != e
  {
    var after := Perform(db, r);
    AcceptedPutReplaces(db, r, e);
    RequestsAreOps(after, between);
    RetiredEtagNeverReturns(after, OpsOf(after, between), e);
  }

  /** Among the PUTs of a run that carry one specific etag, at most one is accepted. */
  lemma {:induction false} AtMostOnePutPerEtag(db: Db, rs: seq<Request>, i: nat, j: nat, e: string)
    requires Reachable(db) && ValidRequests(db, rs) && i < j < |rs|
    requires Conditional(rs[i], e) && Conditional(rs[j], e)
    requires Lower(RunRequests(db, rs[..i]), rs[i]).Some?
    ensures Lower(RunRequests(db, rs[..j]), rs[j]).None?
  {
    RequestsAround(db, rs, i, j);
    RequestsAreOps(db, rs[..i]);
    ReachableHasIntegrity(db);
    ReachableStamped(db);
    RunKeepsIntegrity(db, OpsOf(db, rs[..i]));
    RunKeepsStamps(db, OpsOf(db, rs[..i]));
    EtagGoneAfterPut(RunRequests(db, rs[..i]), rs[i], e, rs[i + 1..j]);
  }

  // Index agreement -----------------------------------------------------------------------------------------------

  /** The columns are the fields of the stored text, and so is the uid when the text has one. */
  predicate RowAgrees(o: CalendarObject) {
    var f := FieldsOf(o.icalData);
    o.fields == Columns(f) && (f.uid.Some? ==> f.uid.value == o.uid)
  }

  ghost predicate Indexed(db: Db) {
    forall k :: k in db.objects ==> RowAgrees(db.objects[k])
  }

  /**
   The uid, the zone and the clock's stamp hold no line feed, and description and location bring no line of
   the event's.
   */
  predicate PlainEvent(args: EventArgs, now: string) {
    OneLine(args.uid) && (args.timezone.Some? ==> OneLine(args.timezone.value)) && OneLine(now) && PlainText(args)
  }

  /** MCP arguments that round-trip; any PUT. */
  predicate GoodRequest(r: Request) {
    r.CreateEvent? || r.UpdateEvent? ==> PlainEvent(r.args, r.now) && CleanArgs(r.args)
  }

  lemma {:induction false} ApplyKeepsIndex(db: Db, op: Op)
    requires Indexed(db)
    requires op.Upsert? ==> RowAgrees(CalendarObject("", op.c, op.u, "", op.data, op.fields))
    ensures Indexed(Apply(db, op))
  {
  }

  lemma {:induction false} PerformKeepsIndex(db: Db, r: Request)
    requires Indexed(db) && Enabled(db, r) && GoodRequest(r)
    ensures Indexed(Perform(db, r))
  {
    if r.CreateEvent? || r.UpdateEvent? { RoundTripIff(r.args, r.now); }
    if Lower(db, r).Some? { ApplyKeepsIndex(db, Lower(db, r).value); }
  }

  /** In every state that PUTs and good MCP calls reach, every row's columns agree with its text. */
  lemma {:induction false} IndexAgreement(db: Db, rs: seq<Request>)
    requires Indexed(db) && ValidRequests(db, rs)
    requires forall i :: 0 <= i < |rs| ==> GoodRequest(rs[i])
    ensures Indexed(RunRequests(db, rs))
    decreases |rs|
  {
    if rs != [] {
      PerformKeepsIndex(db, rs[0]);
      IndexAgreement(Perform(db, rs[0]), rs[1..]);
    }
  }

  /** The row that an accepted MCP call writes. */
  function WrittenRow(db: Db, r: Request): CalendarObject
    requires r.CreateEvent? || r.UpdateEvent?
    requires Lower(db, r).Some? && r.c in db.calendars
  {
    Perform(db, r).objects[(r.c, r.args.uid)]
  }

  /**
   Every MCP call that is accepted: the written row agrees with its text exactly when the lines of the text,
   each unfolded by itself, leave the fields the caller means. It never does with a line feed in the uid, a
   stamp or the summary. Without one there and in the zone, only the lines of description and location
   matter; if none of them is a marker or a property line, the row agrees just when the arguments are clean.
   */
  lemma {:induction false} EventRowAgreesIff(db: Db, r: Request)
    requires r.CreateEvent? || r.UpdateEvent?
    requires Lower(db, r).Some? && r.c in db.calendars
    ensures RowAgrees(WrittenRow(db, r)) <==> LineFields(r.args, r.now) == MeantFields(r.args)
    ensures !(OneLine(r.args.uid) && OneLine(r.args.dtstart) && OneLine(r.args.dtend) && OneLine(r.args.summary)) ==>
              !RowAgrees(WrittenRow(db, r))
    ensures OneLineHeads(r.args) && OneLine(r.now) ==>
              (RowAgrees(WrittenRow(db, r)) <==>
               ScanLines(Scan(ReadFields(r.args), true), ExtraLines(r.args)).fields == MeantFields(r.args))
    ensures PlainEvent(r.args, r.now) ==> (RowAgrees(WrittenRow(db, r)) <==> CleanArgs(r.args))
  {
    BuiltFields(r.args, r.now);
    UidIsRead(r.args, r.now);
    FieldsAreOneLine(VeventText(r.args, r.now));
    WrittenRowAgrees(db, r);
    if PlainEvent(r.args, r.now) { RoundTripIff(r.args, r.now); }
  }

  lemma {:induction false} WrittenRowAgrees(db: Db, r: Request)
    requires r.CreateEvent? || r.UpdateEvent?
    requires Lower(db, r).Some? && r.c in db.calendars
    requires FieldsOf(VeventText(r.args, r.now)).uid.Some?
    ensures RowAgrees(WrittenRow(db, r)) <==> FieldsOf(VeventText(r.args, r.now)) == MeantFields(r.args)
  {
  }

  /**
   Clean arguments are not enough without plainness: behind a line feed, the description can bring its own
   summary. The row then agrees only if that is the summary the caller means.
   */
  lemma {:induction false} DescriptionBreaksRow(db: Db, r: Request, front: string, value: string)
    requires r.CreateEvent? || r.UpdateEvent?
    requires Lower(db, r).Some? && r.c in db.calendars
    requires OneLineHeads(r.args) && OneLine(r.now) && CleanArgs(r.args) && r.args.location == None
    requires OneLine(front) && OneLine(value) && r.args.description == Some(front + "\nSUMMARY:" + value)
    ensures RowAgrees(WrittenRow(db, r)) <==> TrimEnd(value) == r.args.summary
    ensures TrimEnd(value) != r.args.summary ==> !PlainText(r.args)
  {
    EventRowAgreesIff(db, r);
    DescriptionOverridesSummary(r.args, r.now, front, value);
    CleanFields(r.args);
    BuiltFields(r.args, r.now);
  }
}
