/**
 What tokens and etags promise along runs.

 A calendar's ctag changes whenever its objects do and never comes back, an etag names one version of
 one object for ever, and no token a calendar shows is ever the token of a log row.
 */
module Validators {
  import opened Wrappers
  import opened Schema
  import opened Operations

  /** Every sync token made from a drawn UUID. */
  function Tokens(used: set<Uuid>): set<string> { set x | x in used :: SyncToken(x) }

  function Etags(used: set<Uuid>): set<string> { set x | x in used :: Etag(x) }

  lemma {:induction false} FreshToken(used: set<Uuid>, x: Uuid)
    requires x !in used
    ensures SyncToken(x) !in Tokens(used)
  {
    forall y | y in used
      ensures SyncToken(y) != SyncToken(x)
    {
      if SyncToken(y) == SyncToken(x) { SyncTokenInjective(x, y); }
    }
  }

  lemma {:induction false} FreshEtag(used: set<Uuid>, x: Uuid)
    requires x !in used
    ensures Etag(x) !in Etags(used)
  {
    forall y | y in used
      ensures Etag(y) != Etag(x)
    {
      if Etag(y) == Etag(x) { EtagInjective(x, y); }
    }
  }

  lemma {:induction false} DistinctTokens(x: Uuid, y: Uuid)
    requires x != y
    ensures SyncToken(x) != SyncToken(y)
  {
    if SyncToken(x) == SyncToken(y) { SyncTokenInjective(x, y); }
  }

  // State invariants --------------------------------------------------------------------------------

  ghost predicate LoggedToken(db: Db, t: string) {
    exists r :: r in db.log && r.syncToken == t
  }

  ghost predicate CalendarTokens(db: Db) {
    forall c :: c in db.calendars ==>
                  && db.calendars[c].ctag == db.calendars[c].syncToken
                  && db.calendars[c].syncToken in Tokens(db.used)
                  && !LoggedToken(db, db.calendars[c].syncToken)
  }

  ghost predicate LogTokens(db: Db) {
    && (forall r :: r in db.log ==> r.syncToken in Tokens(db.used))
    && DistinctRowTokens(db.log)
  }

  ghost predicate DistinctRowTokens(log: seq<SyncChange>) {
    forall i, j :: 0 <= i < j < |log| ==> log[i].syncToken != log[j].syncToken
  }

  ghost predicate ObjectEtags(db: Db) {
    && (forall k :: k in db.objects ==> db.objects[k].etag in Etags(db.used))
    && (forall k, k' :: k in db.objects && k' in db.objects && k != k' ==> db.objects[k].etag != db.objects[k'].etag)
  }

  /** ctag and sync_token agree, no log row carries a calendar's token, log tokens and etags are unique. */
  ghost predicate Stamped(db: Db) {
    CalendarTokens(db) && LogTokens(db) && ObjectEtags(db)
  }

  /** The token an operation may write into a new log row. */
  function LogTokenOf(op: Op): Option<string> {
    match op
    case Upsert(_, _, _, _, ids) => Some(SyncToken(ids.log))
    case Delete(_, _, log, _) => Some(SyncToken(log))
    case _ => None
  }

  /** The token an operation may give a calendar. */
  function CalendarTokenOf(op: Op): Option<string> {
    match op
    case Upsert(_, _, _, _, ids) => Some(SyncToken(ids.bump))
    case Delete(_, _, _, bump) => Some(SyncToken(bump))
    case CreateCalendar(_, _, _, _, _, _, token) => Some(SyncToken(token))
    case _ => None
  }

  /** What an operation stamps is new, and its two stamps differ. */
  lemma {:induction false} StampsAreFresh(db: Db, op: Op)
    requires Fresh(db, op)
    ensures LogTokenOf(op).Some? ==> LogTokenOf(op).value !in Tokens(db.used)
    ensures CalendarTokenOf(op).Some? ==> CalendarTokenOf(op).value !in Tokens(db.used)
    ensures LogTokenOf(op).Some? && CalendarTokenOf(op).Some? ==> LogTokenOf(op) != CalendarTokenOf(op)
  {
    var drawn := DrawnBy(op);
    match op
    case Upsert(_, _, _, _, ids) =>
      assert drawn[2] == ids.log && drawn[3] == ids.bump;
      FreshToken(db.used, ids.log);
      FreshToken(db.used, ids.bump);
      DistinctTokens(ids.log, ids.bump);
    case Delete(_, _, log, bump) =>
      assert drawn[0] == log && drawn[1] == bump;
      FreshToken(db.used, log);
      FreshToken(db.used, bump);
      DistinctTokens(log, bump);
    case CreateCalendar(_, _, _, _, _, _, token) =>
      assert drawn[0] == token;
      FreshToken(db.used, token);
    case _ =>
  }

  /** Every row after an operation is an old one or carries its log token, and at most one row is new. */
  lemma {:induction false} RowsAfter(db: Db, op: Op)
    ensures forall r :: r in Apply(db, op).log ==> r in db.log || LogTokenOf(op) == Some(r.syncToken)
  {
    if op.DeleteCalendar? { DropRowsMembers(db.log, op.c); }
  }

  /** Every calendar after an operation shows its old token or the operation's. */
  lemma {:induction false} CalendarsAfter(db: Db, op: Op)
    ensures forall c :: c in Apply(db, op).calendars ==>
                          var cal := Apply(db, op).calendars[c];
                          || (c in db.calendars && cal.syncToken == db.calendars[c].syncToken
                              && cal.ctag == db.calendars[c].ctag)
                          || (CalendarTokenOf(op) == Some(cal.syncToken) && cal.ctag == cal.syncToken
                              && cal.syncToken in Tokens(Apply(db, op).used))
  {
  }

  lemma {:induction false} ApplyKeepsCalendarTokens(db: Db, op: Op)
    requires CalendarTokens(db) && LogTokens(db) && Fresh(db, op)
    ensures CalendarTokens(Apply(db, op))
  {
    var db' := Apply(db, op);
    StampsAreFresh(db, op);
    RowsAfter(db, op);
    CalendarsAfter(db, op);
    assert Tokens(db.used) <= Tokens(db'.used);
    forall c | c in db'.calendars
      ensures !LoggedToken(db', db'.calendars[c].syncToken)
    {
      var t := db'.calendars[c].syncToken;
      if CalendarTokenOf(op) != Some(t) { assert c in db.calendars && !LoggedToken(db, t); }
    }
  }

  lemma {:induction false} DropRowsKeepsTokens(log: seq<SyncChange>, c: string)
    requires DistinctRowTokens(log)
    ensures DistinctRowTokens(DropRows(log, c))
    decreases |log|
  {
    if log != [] {
      var n := |log| - 1;
      DropRowsKeepsTokens(log[..n], c);
      DropRowsMembers(log[..n], c);
      var kept := DropRows(log[..n], c);
      forall i | 0 <= i < |kept|
        ensures kept[i].syncToken != log[n].syncToken
      {
        assert kept[i] in log[..n];
      }
    }
  }

  lemma {:induction false} AppendKeepsDistinct(log: seq<SyncChange>, log': seq<SyncChange>)
    requires DistinctRowTokens(log) && |log'| == |log| + 1 && log'[..|log|] == log
    requires forall r :: r in log ==> r.syncToken != log'[|log|].syncToken
    ensures DistinctRowTokens(log')
  {
  }

  lemma {:induction false} ApplyKeepsDistinctRows(db: Db, op: Op)
    requires LogTokens(db) && Fresh(db, op)
    ensures DistinctRowTokens(Apply(db, op).log)
  {
    StampsAreFresh(db, op);
    match op
    case DeleteCalendar(c) => DropRowsKeepsTokens(db.log, c);
    case Upsert(c, _, _, _, _) => if c in db.calendars { AppendKeepsDistinct(db.log, Apply(db, op).log); }
    case Delete(c, u, _, _) =>
      if (c, u) in db.objects && c in db.calendars { AppendKeepsDistinct(db.log, Apply(db, op).log); }
    case _ =>
  }

  lemma {:induction false} ApplyKeepsLogTokens(db: Db, op: Op)
    requires LogTokens(db) && Fresh(db, op)
    ensures LogTokens(Apply(db, op))
  {
    RowsAfter(db, op);
    ApplyKeepsDistinctRows(db, op);
    assert Tokens(db.used) <= Tokens(Apply(db, op).used);
  }

  lemma {:induction false} ApplyKeepsEtags(db: Db, op: Op)
    requires Stamped(db) && Fresh(db, op)
    ensures ObjectEtags(Apply(db, op))
  {
    var db' := Apply(db, op);
    if op.Upsert? {
      assert DrawnBy(op)[1] == op.ids.etag;
      FreshEtag(db.used, op.ids.etag);
    }
    assert Etags(db.used) <= Etags(db'.used);
    forall k | k in db'.objects
      ensures db'.objects[k].etag in Etags(db'.used)
    {
      ObjectsAfter(db, op, k);
    }
    forall k, k' | k in db'.objects && k' in db'.objects && k != k'
      ensures db'.objects[k].etag != db'.objects[k'].etag
    {
      ObjectsAfter(db, op, k);
      ObjectsAfter(db, op, k');
    }
  }

  /** The row shows its old etag, or is the one that the operation wrote. */
  predicate EtagAfter(db: Db, op: Op, k: Key)
    requires k in Apply(db, op).objects
  {
    var etag := Apply(db, op).objects[k].etag;
    || (k in db.objects && etag == db.objects[k].etag)
    || (op.Upsert? && k == (op.c, op.u) && etag == Etag(op.ids.etag) && op.ids.etag in Apply(db, op).used)
  }

  lemma {:induction false} ObjectsAfter(db: Db, op: Op, k: Key)
    requires k in Apply(db, op).objects
    ensures EtagAfter(db, op, k)
  {
  }

  lemma {:induction false} ApplyKeepsStamps(db: Db, op: Op)
    requires Stamped(db) && Fresh(db, op)
    ensures Stamped(Apply(db, op)) && db.used <= Apply(db, op).used
  {
    ApplyKeepsCalendarTokens(db, op);
    ApplyKeepsLogTokens(db, op);
    ApplyKeepsEtags(db, op);
  }

  lemma {:induction false} RunKeepsStamps(db: Db, ops: seq<Op>)
    requires Stamped(db) && ValidRun(db, ops)
    ensures Stamped(Run(db, ops)) && db.used <= Run(db, ops).used
    decreases |ops|
  {
    if ops != [] {
      ApplyKeepsStamps(db, ops[0]);
      RunKeepsStamps(Apply(db, ops[0]), ops[1..]);
    }
  }

  /** In every reachable state: ctag is the sync token, and no log row carries it. */
  lemma {:induction false} ReachableStamped(db: Db)
    requires Reachable(db)
    ensures Stamped(db)
  {
    var ops :| ValidRun(EmptyDb(db.users), ops) && Run(EmptyDb(db.users), ops) == db;
    RunKeepsStamps(EmptyDb(db.users), ops);
  }

  // Promises over runs ------------------------------------------------------------------------------

  /** A token drawn before and not logged now is never logged later: tokens handed out are not log anchors. */
  lemma {:induction false} IssuedTokenNeverLogged(db: Db, ops: seq<Op>, t: string)
    requires ValidRun(db, ops)
    requires t in Tokens(db.used) && !LoggedToken(db, t)
    ensures !LoggedToken(Run(db, ops), t)
    decreases |ops|
  {
    if ops != [] {
      StampsAreFresh(db, ops[0]);
      RowsAfter(db, ops[0]);
      assert Tokens(db.used) <= Tokens(Apply(db, ops[0]).used);
      IssuedTokenNeverLogged(Apply(db, ops[0]), ops[1..], t);
    }
  }

  ghost predicate SameObjects(db: Db, later: Db, c: string) {
    forall u :: SelectObject(later, c, u) == SelectObject(db, c, u)
  }

  /** Since `db`, calendar `c` shows a token that is new, or it still shows the old one over the old objects. */
  ghost predicate TokenGuards(db: Db, later: Db, c: string) {
    c in later.calendars ==>
      || later.calendars[c].ctag !in Tokens(db.used)
      || (c in db.calendars && later.calendars[c].ctag == db.calendars[c].ctag && SameObjects(db, later, c))
  }

  lemma {:induction false} ApplyKeepsGuard(db: Db, later: Db, op: Op, c: string)
    requires Integrity(later) && CalendarTokens(later) && db.used <= later.used
    requires Fresh(later, op) && TokenGuards(db, later, c)
    ensures TokenGuards(db, Apply(later, op), c)
  {
    var after := Apply(later, op);
    assert Tokens(db.used) <= Tokens(later.used);
    StampsAreFresh(later, op);
    if c in after.calendars { ApplyGuards(later, op, c); }
  }

  /** A calendar keeps its ctag and its objects, or shows the token of the operation. */
  ghost predicate KeptOrStamped(db: Db, op: Op, c: string)
    requires c in Apply(db, op).calendars
  {
    var after := Apply(db, op);
    || CalendarTokenOf(op) == Some(after.calendars[c].ctag)
    || (c in db.calendars && after.calendars[c].ctag == db.calendars[c].ctag && SameObjects(db, after, c))
  }

  lemma {:induction false} ApplyGuards(db: Db, op: Op, c: string)
    requires ObjectIntegrity(db) && c in Apply(db, op).calendars
    ensures KeptOrStamped(db, op, c)
  {
    match op
    case Upsert(_, _, _, _, _) => UpsertGuards(db, op, c);
    case Delete(_, _, _, _) => DeleteGuards(db, op, c);
    case _ => OthersGuard(db, op, c);
  }

  lemma {:induction false} UpsertGuards(db: Db, op: Op, c: string)
    requires op.Upsert? && c in Apply(db, op).calendars
    ensures KeptOrStamped(db, op, c)
  {
  }

  lemma {:induction false} DeleteGuards(db: Db, op: Op, c: string)
    requires ObjectIntegrity(db) && op.Delete? && c in Apply(db, op).calendars
    ensures KeptOrStamped(db, op, c)
  {
  }

  lemma {:induction false} OthersGuard(db: Db, op: Op, c: string)
    requires !op.Upsert? && !op.Delete? && c in Apply(db, op).calendars
    ensures KeptOrStamped(db, op, c)
  {
  }

  lemma {:induction false} GuardHolds(db: Db, later: Db, ops: seq<Op>, c: string)
    requires Integrity(later) && Stamped(later) && db.used <= later.used
    requires ValidRun(later, ops) && TokenGuards(db, later, c)
    ensures TokenGuards(db, Run(later, ops), c)
    decreases |ops|
  {
    if ops != [] {
      ApplyKeepsIntegrity(later, ops[0]);
      ApplyKeepsStamps(later, ops[0]);
      ApplyKeepsGuard(db, later, ops[0], c);
      GuardHolds(db, Apply(later, ops[0]), ops[1..], c);
    }
  }

  /** A calendar that shows the same ctag at two points of a run has the same objects at both. */
  lemma {:induction false} CtagSoundness(db: Db, ops: seq<Op>, c: string)
    requires Reachable(db) && ValidRun(db, ops)
    requires c in db.calendars && c in Run(db, ops).calendars
    requires Run(db, ops).calendars[c].ctag == db.calendars[c].ctag
    ensures SameObjects(db, Run(db, ops), c)
  {
    ReachableHasIntegrity(db);
    ReachableStamped(db);
    GuardHolds(db, db, ops, c);
  }

  /** Every later object whose etag was already drawn in `db` is an unchanged row of `db`. */
  ghost predicate EtagsInherited(db: Db, later: Db) {
    forall k :: k in later.objects && later.objects[k].etag in Etags(db.used) ==>
                  k in db.objects && db.objects[k] == later.objects[k]
  }

  lemma {:induction false} ApplyInheritsEtags(db: Db, later: Db, op: Op)
    requires db.used <= later.used && Fresh(later, op) && EtagsInherited(db, later)
    ensures EtagsInherited(db, Apply(later, op)) && db.used <= Apply(later, op).used
  {
    assert Etags(db.used) <= Etags(later.used);
    if op.Upsert? {
      assert DrawnBy(op)[1] == op.ids.etag;
      FreshEtag(later.used, op.ids.etag);
    }
  }

  lemma {:induction false} EtagsStayInherited(db: Db, later: Db, ops: seq<Op>)
    requires db.used <= later.used && ValidRun(later, ops) && EtagsInherited(db, later)
    ensures EtagsInherited(db, Run(later, ops))
    decreases |ops|
  {
    if ops != [] {
      ApplyInheritsEtags(db, later, ops[0]);
      EtagsStayInherited(db, Apply(later, ops[0]), ops[1..]);
    }
  }

  /** Two appearances of one etag, at any two points of a run, are the same row: same key, same text. */
  lemma {:induction false} EtagSoundness(db: Db, ops: seq<Op>, k: Key, k': Key)
    requires Reachable(db) && ValidRun(db, ops)
    requires k in db.objects && k' in Run(db, ops).objects
    requires db.objects[k].etag == Run(db, ops).objects[k'].etag
    ensures k == k' && db.objects[k] == Run(db, ops).objects[k']
  {
    ReachableStamped(db);
    EtagsStayInherited(db, db, ops);
  }

  /** An etag no object carries any more never returns. */
  lemma {:induction false} RetiredEtagNeverReturns(db: Db, ops: seq<Op>, e: string)
    requires ValidRun(db, ops) && e in Etags(db.used)
    requires forall k :: k in db.objects ==> db.objects[k].etag != e
    ensures forall k :: k in Run(db, ops).objects ==> Run(db, ops).objects[k].etag != e
  {
    EtagsStayInherited(db, db, ops);
  }
}
