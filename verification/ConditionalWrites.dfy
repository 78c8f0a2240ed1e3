/**
 Which schedules keep the protection of If-Match.

 A conditional upsert checks the etag in one statement and writes the row in a later one. `Replaces`
 says that the write hits exactly the version that was checked; `CheckedWriteIff` says that this is so
 exactly when no row statement on the object runs in between. Whatever the schedule, each version is
 replaced at most once.
 */
module ConditionalWrites {
  import opened Wrappers
  import opened Schema
  import opened Operations
  import opened Store
  import opened Validators
  import opened Interleaving
  import opened Provenance

  // Statements on one row -------------------------------------------------------------------------------------

  /**
   The request executes a statement on the row under `k`: an UPDATE, a DELETE, the drop of its calendar, or
   an INSERT. The UNIQUE constraint refuses an INSERT while the row is there, so only one without a row
   counts.
   */
  predicate HitsRow(db: Db, r: Request, k: Key) {
    match r.job
    case Upserting(_, c, u, _, _, _) =>
      (c, u) == k && (r.phase == Update || (r.phase == Insert && k !in db.objects))
    case Deleting(c, u, _, _) => (c, u) == k && r.phase == Remove
    case Dropping(c) => c == k.0 && r.phase == Remove
    case Creating(_, _, _, _, _, _, _) => false
  }

  predicate RowStatement(s: System, e: Event, k: Key) {
    e.Advance? && e.i < |s.requests| && HitsRow(s.db, s.requests[e.i], k)
  }

  /** Some event of the schedule is a row statement on `k`. */
  predicate Touched(s: System, es: seq<Event>, k: Key)
    decreases |es|
  {
    es != [] && (RowStatement(s, es[0], k) || Touched(Next(s, es[0]), es[1..], k))
  }

  // Versions ----------------------------------------------------------------------------------------------------

  /** The row under `k` is `o`, and no other row carries its etag. */
  ghost predicate Holds(db: Db, k: Key, o: CalendarObject) {
    && k in db.objects && db.objects[k] == o
    && forall k' :: k' in db.objects && k' != k ==> db.objects[k'].etag != o.etag
  }

  ghost predicate NoneCarries(db: Db, etag: string) {
    forall k :: k in db.objects ==> db.objects[k].etag != etag
  }

  /** An etag that was drawn, and that no request will write again. */
  ghost predicate Spent(s: System, etag: string) {
    && etag in Etags(s.db.used)
    && forall i :: 0 <= i < |s.requests| && s.requests[i].job.Upserting? && !PastRow(s.requests[i].phase) ==>
                     Etag(s.requests[i].job.ids.etag) != etag
  }

  lemma {:induction false} StaysSpent(s: System, e: Event, etag: string)
    requires Enabled(s, e) && Spent(s, etag)
    ensures Spent(Next(s, e), etag)
  {
    match e
    case Arrive(job) =>
      assert Etags(s.db.used) <= Etags(Next(s, e).db.used);
      if job.Upserting? {
        assert DrawnBy(OpOf(job))[1] == job.ids.etag;
        FreshEtag(s.db.used, job.ids.etag);
      }
    case Advance(i) =>
      PhasesMoveOn(s.db, s.requests[i]);
      assert Execute(s.db, s.requests[i]).0.used == s.db.used;
  }

  /** A statement that is none on the row leaves it as it is. */
  lemma {:induction false} UntouchedRow(s: System, e: Event, k: Key)
    requires k in s.db.objects && !RowStatement(s, e, k)
    ensures k in Next(s, e).db.objects && Next(s, e).db.objects[k] == s.db.objects[k]
  {
    if e.Advance? && e.i < |s.requests| { StatementElsewhere(s.db, s.requests[e.i], k); }
  }

  lemma {:induction false} StatementElsewhere(db: Db, r: Request, k: Key)
    requires k in db.objects && !HitsRow(db, r, k)
    ensures var after := Execute(db, r).0; k in after.objects && after.objects[k] == db.objects[k]
  {
  }

  /** Any other row is the old one, or carries the etag of an upsert that had not written before. */
  lemma {:induction false} OtherRows(s: System, e: Event, etag: string, k: Key)
    requires Enabled(s, e) && Spent(s, etag)
    requires k in Next(s, e).db.objects && Next(s, e).db.objects[k].etag == etag
    ensures k in s.db.objects && s.db.objects[k].etag == etag
  {
    if e.Advance? { StatementOnObjects(s.db, s.requests[e.i], k); }
  }

  lemma {:induction false} StaysGone(s: System, e: Event, etag: string)
    requires Enabled(s, e) && Spent(s, etag) && NoneCarries(s.db, etag)
    ensures NoneCarries(Next(s, e).db, etag)
  {
    forall k | k in Next(s, e).db.objects
      ensures Next(s, e).db.objects[k].etag != etag
    {
      if Next(s, e).db.objects[k].etag == etag { OtherRows(s, e, etag, k); }
    }
  }

  lemma {:induction false} StaysHeld(s: System, e: Event, k: Key, o: CalendarObject)
    requires Enabled(s, e) && Spent(s, o.etag) && Holds(s.db, k, o) && !RowStatement(s, e, k)
    ensures Holds(Next(s, e).db, k, o)
  {
    UntouchedRow(s, e, k);
    forall k' | k' in Next(s, e).db.objects && k' != k
      ensures Next(s, e).db.objects[k'].etag != o.etag
    {
      if Next(s, e).db.objects[k'].etag == o.etag { OtherRows(s, e, o.etag, k'); }
    }
  }

  /** A row statement takes the version away for good. */
  lemma {:induction false} RowStatementReplaces(s: System, e: Event, k: Key, o: CalendarObject)
    requires Enabled(s, e) && Spent(s, o.etag) && Holds(s.db, k, o) && RowStatement(s, e, k)
    ensures NoneCarries(Next(s, e).db, o.etag)
  {
    forall k' | k' in Next(s, e).db.objects
      ensures Next(s, e).db.objects[k'].etag != o.etag
    {
      if Next(s, e).db.objects[k'].etag == o.etag {
        OtherRows(s, e, o.etag, k');
        assert k' == k;
        RowStatementChanges(s, e, k);
      }
    }
  }

  lemma {:induction false} RowStatementChanges(s: System, e: Event, k: Key)
    requires Enabled(s, e) && k in s.db.objects && RowStatement(s, e, k) && k in Next(s, e).db.objects
    ensures var r := s.requests[e.i];
            r.job.Upserting? && r.phase == Update && Next(s, e).db.objects[k].etag == Etag(r.job.ids.etag)
  {
  }

  lemma {:induction false} PlayStaysGone(s: System, es: seq<Event>, etag: string)
    requires ValidSchedule(s, es) && Spent(s, etag) && NoneCarries(s.db, etag)
    ensures NoneCarries(Play(s, es).db, etag) && Spent(Play(s, es), etag)
    decreases |es|
  {
    if es != [] {
      StaysGone(s, es[0], etag);
      StaysSpent(s, es[0], etag);
      PlayStaysGone(Next(s, es[0]), es[1..], etag);
    }
  }

  /** What the etags of a scheduled state are worth: each names one row, and nobody will write it again. */
  lemma {:induction false} CurrentIsSpent(s: System, k: Key)
    requires Origins(s) && k in s.db.objects
    ensures Spent(s, s.db.objects[k].etag) && Holds(s.db, k, s.db.objects[k])
  {
    var o := s.db.objects[k];
    OriginsGiveEtags(s);
    forall j | 0 <= j < |s.requests| && s.requests[j].job.Upserting? && !PastRow(s.requests[j].phase)
      ensures Etag(s.requests[j].job.ids.etag) != o.etag
    {
      var m :| 0 <= m < |s.requests| && WroteEtag(s.requests[m], k, o.etag);
      EtagsDiffer(s, j, m);
    }
  }

  /** A version stays as it is, or is gone for good. */
  lemma {:induction false} HeldOrGone(s: System, es: seq<Event>, k: Key, o: CalendarObject)
    requires ValidSchedule(s, es) && Spent(s, o.etag) && Holds(s.db, k, o)
    ensures Holds(Play(s, es).db, k, o) || NoneCarries(Play(s, es).db, o.etag)
    decreases |es|
  {
    if es != [] {
      StaysSpent(s, es[0], o.etag);
      if RowStatement(s, es[0], k) {
        RowStatementReplaces(s, es[0], k, o);
        PlayStaysGone(Next(s, es[0]), es[1..], o.etag);
      } else {
        StaysHeld(s, es[0], k, o);
        HeldOrGone(Next(s, es[0]), es[1..], k, o);
      }
    }
  }

  /**
   Under every schedule an etag names one version of one object for ever: two appearances of it, at any two
   moments, are the same row.
   */
  lemma {:induction false} ScheduledEtagSoundness(users: set<string>, es: seq<Event>, more: seq<Event>, k: Key, k': Key)
    requires ValidSchedule(Idle(users), es) && ValidSchedule(Play(Idle(users), es), more)
    requires var s := Play(Idle(users), es);
             && k in s.db.objects && k' in Play(s, more).db.objects
             && s.db.objects[k].etag == Play(s, more).db.objects[k'].etag
    ensures var s := Play(Idle(users), es); k == k' && s.db.objects[k] == Play(s, more).db.objects[k']
  {
    var s := Play(Idle(users), es);
    ScheduledHasOrigins(users, es);
    CurrentIsSpent(s, k);
    HeldOrGone(s, more, k, s.db.objects[k]);
  }

  // Between the check and the write ------------------------------------------------------------------------------

  /** Request `i` is a conditional upsert on `k`, about to check. */
  predicate Checks(s: System, i: nat, k: Key) {
    && i < |s.requests| && s.requests[i].phase == Check
    && var job := s.requests[i].job;
       job.Upserting? && (job.c, job.u) == k && job.ifMatch.Some? && job.ifMatch.value != "*"
  }

  predicate Passes(s: System, i: nat, k: Key) {
    Checks(s, i, k) && k in s.db.objects && s.requests[i].job.ifMatch == Some(s.db.objects[k].etag)
  }

  /** Request `i` is about to execute its row statement. */
  predicate AtRow(s: System, i: nat) {
    i < |s.requests| && (s.requests[i].phase == Insert || s.requests[i].phase == Update)
  }

  /** The next statement of request `i` turns version `o` into the one the request brings, and logs that as a change. */
  ghost predicate Replaces(s: System, i: nat, k: Key, o: CalendarObject)
    requires i < |s.requests| && s.requests[i].job.Upserting?
  {
    var job, s' := s.requests[i].job, Next(s, Advance(i));
    && k in s.db.objects && s.db.objects[k] == o
    && s'.db.objects == s.db.objects[k := o.(etag := Etag(job.ids.etag), icalData := job.data, fields := job.fields)]
    && s'.requests[i].phase == Log(Modified)
  }

  lemma {:induction false} JobStays(s: System, e: Event, i: nat)
    requires i < |s.requests|
    ensures i < |Next(s, e).requests| && Next(s, e).requests[i].job == s.requests[i].job
  {
  }

  lemma {:induction false} PlayKeepsJob(s: System, es: seq<Event>, i: nat)
    requires i < |s.requests|
    ensures i < |Play(s, es).requests| && Play(s, es).requests[i].job == s.requests[i].job
    decreases |es|
  {
    if es != [] {
      JobStays(s, es[0], i);
      PlayKeepsJob(Next(s, es[0]), es[1..], i);
    }
  }

  /** The request has checked and has not been kept from an UPDATE. */
  predicate OnCourse(s: System, i: nat, k: Key) {
    && i < |s.requests| && (s.requests[i].phase == Select || s.requests[i].phase == Update)
    && var job := s.requests[i].job; job.Upserting? && (job.c, job.u) == k
  }

  lemma {:induction false} StaysOnCourse(s: System, e: Event, i: nat, k: Key)
    requires Enabled(s, e) && OnCourse(s, i, k) && k in s.db.objects && !RowStatement(s, e, k)
    ensures OnCourse(Next(s, e), i, k)
  {
  }

  /** What the row statement of the request meets: the checked version, or no row that carries its etag. */
  lemma {:induction false} UntilRowStatement(s: System, i: nat, k: Key, o: CalendarObject, mid: seq<Event>)
    requires ValidSchedule(s, mid) && Spent(s, o.etag) && Holds(s.db, k, o) && OnCourse(s, i, k)
    requires AtRow(Play(s, mid), i)
    ensures Spent(Play(s, mid), o.etag)
    ensures !Touched(s, mid, k) ==> Holds(Play(s, mid).db, k, o) && Play(s, mid).requests[i].phase == Update
    ensures Touched(s, mid, k) ==> NoneCarries(Play(s, mid).db, o.etag)
    decreases |mid|
  {
    if mid != [] {
      var e, s' := mid[0], Next(s, mid[0]);
      StaysSpent(s, e, o.etag);
      if RowStatement(s, e, k) {
        RowStatementReplaces(s, e, k, o);
        PlayStaysGone(s', mid[1..], o.etag);
      } else {
        StaysHeld(s, e, k, o);
        StaysOnCourse(s, e, i, k);
        UntilRowStatement(s', i, k, o, mid[1..]);
      }
    }
  }

  lemma {:induction false} UpdateReplaces(s: System, i: nat, k: Key, o: CalendarObject)
    requires i < |s.requests| && s.requests[i].job.Upserting? && (s.requests[i].job.c, s.requests[i].job.u) == k
    requires s.requests[i].phase == Update && k in s.db.objects && s.db.objects[k] == o
    ensures Replaces(s, i, k, o)
  {
  }

  /** What a check that passes leaves: its version is the only row with its etag, and nobody will write that again. */
  lemma {:induction false} AfterCheck(s: System, i: nat, k: Key)
    requires Origins(s) && Passes(s, i, k)
    ensures var o, s' := s.db.objects[k], Next(s, Advance(i));
            Spent(s', o.etag) && Holds(s'.db, k, o) && OnCourse(s', i, k) && s'.db == s.db
  {
    CurrentIsSpent(s, k);
  }

  /**
   Lost updates, exactly. In any schedule from the empty system, let request `i` pass its check after
   `before`, and let it stand at its row statement after further events `mid`. It then replaces exactly
   the version it checked if and only if no row statement on the object ran in `mid`. A check can also end
   in an INSERT, which means that the version was deleted meanwhile.
   */
  lemma {:induction false} CheckedWriteIff(users: set<string>, before: seq<Event>, i: nat, k: Key, mid: seq<Event>)
    requires var s1 := Play(Idle(users), before);
             && ValidSchedule(Idle(users), before) && Passes(s1, i, k)
             && ValidSchedule(Next(s1, Advance(i)), mid) && AtRow(Play(Next(s1, Advance(i)), mid), i)
    ensures var s1 := Play(Idle(users), before);
            var s2 := Next(s1, Advance(i));
            var s3 := Play(s2, mid);
            && s3.requests[i].job == s1.requests[i].job
            && (Replaces(s3, i, k, s1.db.objects[k]) <==> !Touched(s2, mid, k))
            && (s3.requests[i].phase == Insert ==> Touched(s2, mid, k))
            && (Touched(s2, mid, k) ==> NoneCarries(s3.db, s1.db.objects[k].etag))
  {
    var s1 := Play(Idle(users), before);
    var s2 := Next(s1, Advance(i));
    var o := s1.db.objects[k];
    ScheduledHasOrigins(users, before);
    AfterCheck(s1, i, k);
    UntilRowStatement(s2, i, k, o, mid);
    PlayKeepsJob(s2, mid, i);
    if !Touched(s2, mid, k) { UpdateReplaces(Play(s2, mid), i, k, o); }
  }

  /** After its row statement, hit or miss, nobody carries the checked etag ever again. */
  lemma {:induction false} CheckedEtagIsRetired(users: set<string>, before: seq<Event>, i: nat, k: Key,
      mid: seq<Event>, more: seq<Event>)
    requires var s1 := Play(Idle(users), before);
             && ValidSchedule(Idle(users), before) && Passes(s1, i, k)
             && ValidSchedule(Next(s1, Advance(i)), mid) && AtRow(Play(Next(s1, Advance(i)), mid), i)
             && ValidSchedule(Next(Play(Next(s1, Advance(i)), mid), Advance(i)), more)
    ensures var s1 := Play(Idle(users), before);
            NoneCarries(Play(Next(Play(Next(s1, Advance(i)), mid), Advance(i)), more).db, s1.db.objects[k].etag)
  {
    var s1 := Play(Idle(users), before);
    var s2 := Next(s1, Advance(i));
    var s3 := Play(s2, mid);
    var o := s1.db.objects[k];
    ScheduledHasOrigins(users, before);
    AfterCheck(s1, i, k);
    UntilRowStatement(s2, i, k, o, mid);
    PlayKeepsJob(s2, mid, i);
    if Touched(s2, mid, k) {
      StaysGone(s3, Advance(i), o.etag);
    } else {
      RowStatementReplaces(s3, Advance(i), k, o);
    }
    StaysSpent(s3, Advance(i), o.etag);
    PlayStaysGone(Next(s3, Advance(i)), more, o.etag);
  }

  /**
   Of two conditional upserts with one etag, the second to check fails its check if the first has
   executed its row statement by then. So both succeed only if both checks precede both row statements.
   */
  lemma {:induction false} SecondCheckFails(
    users: set<string>, before: seq<Event>, i: nat, k: Key, mid: seq<Event>, more: seq<Event>, j: nat, k': Key)
    requires var s1 := Play(Idle(users), before);
             && ValidSchedule(Idle(users), before) && Passes(s1, i, k)
             && ValidSchedule(Next(s1, Advance(i)), mid) && AtRow(Play(Next(s1, Advance(i)), mid), i)
             && var s4 := Next(Play(Next(s1, Advance(i)), mid), Advance(i));
                && ValidSchedule(s4, more)
                && Checks(Play(s4, more), j, k')
                && Play(s4, more).requests[j].job.ifMatch == s1.requests[i].job.ifMatch
    ensures var s5 := Play(Next(Play(Next(Play(Idle(users), before), Advance(i)), mid), Advance(i)), more);
            Next(s5, Advance(j)).requests[j].phase == Done(false) && Next(s5, Advance(j)).db == s5.db
  {
    CheckedEtagIsRetired(users, before, i, k, mid, more);
  }

  /** Under every schedule at most one request replaces the version with a given etag. */
  lemma {:induction false} ReplacedOnce(
    users: set<string>, before: seq<Event>, i: nat, k: Key, mid: seq<Event>, more: seq<Event>, j: nat)
    requires var s1 := Play(Idle(users), before);
             && ValidSchedule(Idle(users), before) && Passes(s1, i, k)
             && ValidSchedule(Next(s1, Advance(i)), mid) && AtRow(Play(Next(s1, Advance(i)), mid), i)
             && var s4 := Next(Play(Next(s1, Advance(i)), mid), Advance(i));
                && ValidSchedule(s4, more)
                && j < |Play(s4, more).requests| && Play(s4, more).requests[j].job.Upserting?
    ensures var s1 := Play(Idle(users), before);
            var s5 := Play(Next(Play(Next(s1, Advance(i)), mid), Advance(i)), more);
            forall k': Key, o: CalendarObject :: o.etag == s1.db.objects[k].etag ==> !Replaces(s5, j, k', o)
  {
    CheckedEtagIsRetired(users, before, i, k, mid, more);
  }

  // A check that ends in an insert -------------------------------------------------------------------------------

  lemma {:induction false} DeletedAfterCheck(db: Db, put: Job, del: Job) returns (s: System)
    requires Integrity(db) && put.Upserting? && del.Deleting? && del.c == put.c && del.u == put.u
    requires (put.c, put.u) in db.objects && put.ifMatch == Some(db.objects[(put.c, put.u)].etag)
        && put.ifMatch != Some("*")
    requires Fresh(db, OpOf(put)) && Fresh(Started(db, put), OpOf(del))
    ensures Leads(System(db, []), s) && s.requests == [Request(put, Select), Request(del, Done(true))]
    ensures var started := Started(Started(db, put), del);
            s.db == DeleteDb(started, del.c, del.u, del.log, del.bump).(used := started.used)
  {
    s := CheckPassed(db, put, del);
    SoloDelete(s.db, del);
    s := LeadsToFinish(System(db, []), s, 1);
  }

  lemma {:induction false} CheckPassed(db: Db, put: Job, del: Job) returns (s: System)
    requires put.Upserting? && del.Deleting?
    requires (put.c, put.u) in db.objects && put.ifMatch == Some(db.objects[(put.c, put.u)].etag)
        && put.ifMatch != Some("*")
    requires Fresh(db, OpOf(put)) && Fresh(Started(db, put), OpOf(del))
    ensures Leads(System(db, []), s)
    ensures s == System(Started(Started(db, put), del), [Request(put, Select), Request(del, Remove)])
  {
    s := BothArrive(db, put, del);
    s := LeadsOn(System(db, []), s, Advance(0));
  }

  /**
   A conditional upsert whose object is deleted after its check succeeds all the same: it creates the
   object again, and replaces nothing.
   */
  lemma {:induction false} CheckedUpsertMayInsert(db: Db, put: Job, del: Job) returns (s: System)
    requires Integrity(db) && put.Upserting? && del.Deleting? && del.c == put.c && del.u == put.u
    requires (put.c, put.u) in db.objects && put.ifMatch == Some(db.objects[(put.c, put.u)].etag)
        && put.ifMatch != Some("*")
    requires Fresh(db, OpOf(put)) && Fresh(Started(db, put), OpOf(del))
    ensures Leads(System(db, []), s) && s.requests == [Request(put, Done(true)), Request(del, Done(true))]
    ensures (put.c, put.u) in s.db.objects && s.db.objects[(put.c, put.u)].id == put.ids.row
    ensures exists before, a, b, t, t' ::
              s.db.log == before + [SyncChange(a, put.c, put.u, Deleted, t), SyncChange(b, put.c, put.u, Created, t')]
  {
    var s0 := System(db, []);
    s := DeletedAfterCheck(db, put, del);
    var log, a := db.log, db.nextLogId;
    var gone := SyncChange(a, put.c, put.u, Deleted, SyncToken(del.log));
    assert s.db.log == log + [gone];
    SoloUpsert(s.db, put);
    s := LeadsToFinish(s0, s, 0);
    assert s.db.log == log + [gone, SyncChange(a + 1, put.c, put.u, Created, SyncToken(put.ids.log))];
  }
}
