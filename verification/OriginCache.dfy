/** The allowed-origin check of many server instances: each keeps its own copy of a shared table, dropped on
    its own writes and after a time to live. A query reads the table in one step and installs its rows in a
    later one, at most `latency` milliseconds after. */
module OriginCache {
  import opened Domain

  const CACHE_TTL_MS := 60_000

  type Origin = string
  type InstanceId = nat
  type QueryId = nat

  // ---------- many instances and the table

  /** The table's rows from instant `since` until the next version. */
  datatype Version = Version(since: nat, rows: set<Origin>)

  /** Rows read as version `version`; installed at `at`. */
  datatype Copy = Copy(rows: set<Origin>, version: nat, at: nat)

  datatype Query = Query(rows: set<Origin>, version: nat, readAt: nat)

  datatype Instance = Instance(cache: Option<Copy>, queries: map<QueryId, Query>)

  datatype Answer = Answer(instance: InstanceId, origin: Origin, allowed: bool, at: nat, version: nat)

  datatype State = State(now: nat, versions: seq<Version>, instances: map<InstanceId, Instance>, answers: seq<Answer>)

  datatype Step =
    | Tick(ms: nat)
    | Add(origin: Origin)
    | Remove(origin: Origin)
    | Invalidate(i: InstanceId)
    | Read(i: InstanceId, q: QueryId)
    | Install(i: InstanceId, q: QueryId, origin: Origin)
    | Hit(i: InstanceId, origin: Origin)

  predicate HasTable(s: State) {
    |s.versions| > 0
  }

  function Latest(s: State): Version
    requires HasTable(s)
  {
    s.versions[|s.versions| - 1]
  }

  function Commit(s: State, rows: set<Origin>): State {
    s.(versions := s.versions + [Version(s.now, rows)])
  }

  function SetInstance(s: State, i: InstanceId, x: Instance): State {
    s.(instances := s.instances[i := x])
  }

  function Tell(s: State, i: InstanceId, origin: Origin, c: Copy): State {
    s.(answers := s.answers + [Answer(i, origin, origin in c.rows, s.now, c.version)])
  }

  function DoInstall(s: State, latency: nat, i: InstanceId, q: QueryId, origin: Origin): State {
    if i !in s.instances || q !in s.instances[i].queries then s
    else
      var query := s.instances[i].queries[q];
      if s.now - query.readAt > latency then s
      else
        var c := Copy(query.rows, query.version, s.now);
        Tell(SetInstance(s, i, Instance(Some(c), s.instances[i].queries - {q})), i, origin, c)
  }

  function Apply(s: State, latency: nat, step: Step): State
    requires HasTable(s)
  {
    match step
    case Tick(ms) => s.(now := s.now + ms)
    case Add(origin) => if origin in Latest(s).rows then s else Commit(s, Latest(s).rows + {origin})
    case Remove(origin) => if origin in Latest(s).rows then Commit(s, Latest(s).rows - {origin}) else s
    case Invalidate(i) => if i in s.instances then SetInstance(s, i, s.instances[i].(cache := None)) else s
    case Read(i, q) =>
      if i !in s.instances || q in s.instances[i].queries then s
      else
        SetInstance(s, i, s.instances[i].(queries :=
          s.instances[i].queries[q := Query(Latest(s).rows, |s.versions| - 1, s.now)]))
    case Install(i, q, origin) => DoInstall(s, latency, i, q, origin)
    case Hit(i, origin) =>
      if i in s.instances && s.instances[i].cache.Some? && s.now - s.instances[i].cache.value.at <= CACHE_TTL_MS
      then Tell(s, i, origin, s.instances[i].cache.value) else s
  }

  lemma ApplyKeepsTable(s: State, latency: nat, step: Step)
    requires HasTable(s)
    ensures HasTable(Apply(s, latency, step)) && s.versions <= Apply(s, latency, step).versions
    ensures s.answers <= Apply(s, latency, step).answers
  {
  }

  ghost function Run(s: State, latency: nat, steps: seq<Step>): (r: State)
    requires HasTable(s)
    ensures HasTable(r)
    decreases |steps|
  {
    if |steps| == 0 then s
    else
      ApplyKeepsTable(s, latency, steps[0]);
      Run(Apply(s, latency, steps[0]), latency, steps[1..])
  }

  /** Any number of instances with nothing loaded, and a table. */
  function Initial(ids: set<InstanceId>, rows: set<Origin>): State {
    State(0, [Version(0, rows)], map i | i in ids :: Instance(None, map[]), [])
  }

  // ---------- one instance, updated in place

  class AllowedOriginsService {
    var cache: Option<set<Origin>>
    var cachedAt: nat
    ghost var version: nat
    ghost var queries: map<QueryId, Query>

    /** The instance of the machine that this object is. */
    ghost function View(): Instance reads this {
      Instance(if cache.Some? then Some(Copy(cache.value, version, cachedAt)) else None, queries)
    }

    ghost predicate Shows(s: State, i: InstanceId) reads this {
      HasTable(s) && i in s.instances && s.instances[i] == View()
    }

    constructor ()
      ensures View() == Instance(None, map[])
    {
      cache, cachedAt, version, queries := None, 0, 0, map[];
    }

    /** The end of `add` and of `remove`, after their write to the table. */
    method Invalidate(ghost s: State, ghost latency: nat, ghost i: InstanceId)
      requires Shows(s, i)
      modifies this`cache
      ensures Shows(Apply(s, latency, Step.Invalidate(i)), i)
    {
      cache := None;
    }

    /** The part of `isAllowed` before its query: it answers exactly when the machine can, and the same. */
    method Check(origin: Origin, now: nat, ghost s: State, ghost latency: nat, ghost i: InstanceId)
      returns (hit: Option<bool>)
      requires Shows(s, i) && s.now == now
      ensures var s' := Apply(s, latency, Hit(i, origin));
              if hit.Some? then s' == s.(answers := s.answers + [Answer(i, origin, hit.value, now, version)])
              else s' == s
    {
      if cache.None? || now - cachedAt > CACHE_TTL_MS {
        return None;
      }
      hit := Some(origin in cache.value);
    }

    /** The query itself: the table's rows, to be installed later. */
    method Read(table: set<Origin>, ghost s: State, ghost latency: nat, ghost i: InstanceId, ghost q: QueryId)
      returns (rows: set<Origin>)
      requires Shows(s, i) && table == Latest(s).rows && q !in queries
      modifies this`queries
      ensures Shows(Apply(s, latency, Step.Read(i, q)), i)
      ensures q in queries && queries[q].rows == rows && queries[q].readAt == s.now
    {
      rows := table;
      queries := queries[q := Query(rows, |s.versions| - 1, s.now)];
    }

    /** The part of `isAllowed` after its query. */
    method Install(rows: set<Origin>, now: nat, origin: Origin,
                   ghost s: State, ghost latency: nat, ghost i: InstanceId, ghost q: QueryId) returns (allowed: bool)
      requires Shows(s, i) && s.now == now
      requires q in queries && queries[q].rows == rows && now - queries[q].readAt <= latency
      modifies this
      ensures var s' := Apply(s, latency, Step.Install(i, q, origin));
              Shows(s', i) && s'.answers == s.answers + [Answer(i, origin, allowed, now, old(queries)[q].version)]
    {
      cache := Some(rows);
      cachedAt := now;
      version, queries := queries[q].version, queries - {q};
      allowed := origin in cache.value;
    }
  }

  // ---------- staleness is bounded

  /** Version `v` was the table's content at instant `t`. */
  predicate CurrentAt(versions: seq<Version>, v: nat, t: int) {
    v < |versions| && versions[v].since <= t && (v + 1 < |versions| ==> t <= versions[v + 1].since)
  }

  /** `rows` were the table at some instant between `from` and `to`, as version `v`. */
  ghost predicate SeenWithin(versions: seq<Version>, rows: set<Origin>, v: nat, from: int, to: int) {
    exists t: int :: from <= t <= to && CurrentAt(versions, v, t) && versions[v].rows == rows
  }

  ghost predicate InstanceOk(s: State, latency: nat, x: Instance) {
    && (x.cache.Some? ==>
          var c := x.cache.value;
          c.at <= s.now && SeenWithin(s.versions, c.rows, c.version, c.at - latency, c.at))
    && (forall q :: q in x.queries ==>
          var query := x.queries[q];
          && query.readAt <= s.now && CurrentAt(s.versions, query.version, query.readAt)
          && s.versions[query.version].rows == query.rows)
  }

  /** The answer is the table's membership at an instant no more than the TTL plus the latency earlier. */
  ghost predicate AnswerOk(versions: seq<Version>, latency: nat, a: Answer) {
    exists t: int :: a.at - CACHE_TTL_MS - latency <= t <= a.at && CurrentAt(versions, a.version, t)
                     && (a.allowed <==> a.origin in versions[a.version].rows)
  }

  ghost predicate Inv(s: State, latency: nat) {
    && HasTable(s) && Latest(s).since <= s.now
    && (forall i :: i in s.instances ==> InstanceOk(s, latency, s.instances[i]))
    && (forall k :: 0 <= k < |s.answers| ==> AnswerOk(s.versions, latency, s.answers[k]) && s.answers[k].at <= s.now)
  }

  lemma CommitKeepsInv(s: State, latency: nat, rows: set<Origin>)
    requires Inv(s, latency)
    ensures Inv(Commit(s, rows), latency)
  {
    var s' := Commit(s, rows);
    forall v: nat, t: int | t <= s.now && CurrentAt(s.versions, v, t)
      ensures CurrentAt(s'.versions, v, t) && s'.versions[v] == s.versions[v]
    {
    }
    forall i | i in s'.instances ensures InstanceOk(s', latency, s'.instances[i]) {
      assert InstanceOk(s, latency, s.instances[i]);
      var x := s.instances[i];
      if x.cache.Some? {
        var c := x.cache.value;
        var t: int :| c.at - latency <= t <= c.at && CurrentAt(s.versions, c.version, t)
                      && s.versions[c.version].rows == c.rows;
        assert CurrentAt(s'.versions, c.version, t);
      }
    }
    forall k | 0 <= k < |s'.answers| ensures AnswerOk(s'.versions, latency, s'.answers[k]) {
      var a := s.answers[k];
      assert AnswerOk(s.versions, latency, a);
      var t: int :| a.at - CACHE_TTL_MS - latency <= t <= a.at && CurrentAt(s.versions, a.version, t)
                    && (a.allowed <==> a.origin in s.versions[a.version].rows);
      assert CurrentAt(s'.versions, a.version, t);
    }
  }

  lemma TellKeepsInv(s: State, latency: nat, i: InstanceId, origin: Origin, c: Copy)
    requires Inv(s, latency) && c.at <= s.now <= c.at + CACHE_TTL_MS
    requires SeenWithin(s.versions, c.rows, c.version, c.at - latency, c.at)
    ensures Inv(Tell(s, i, origin, c), latency)
  {
  }

  lemma SetInstanceKeepsInv(s: State, latency: nat, i: InstanceId, x: Instance)
    requires Inv(s, latency) && InstanceOk(s, latency, x)
    ensures Inv(SetInstance(s, i, x), latency)
  {
  }

  lemma StepKeepsInv(s: State, latency: nat, step: Step)
    requires Inv(s, latency)
    ensures Inv(Apply(s, latency, step), latency)
  {
    match step
    case Tick(ms) =>
      assert forall i :: i in s.instances ==> InstanceOk(s, latency, s.instances[i]);
    case Add(origin) => CommitKeepsInv(s, latency, Latest(s).rows + {origin});
    case Remove(origin) => CommitKeepsInv(s, latency, Latest(s).rows - {origin});
    case Invalidate(i) =>
      if i in s.instances {
        assert InstanceOk(s, latency, s.instances[i]);
        SetInstanceKeepsInv(s, latency, i, s.instances[i].(cache := None));
      }
    case Read(i, q) =>
      if i in s.instances && q !in s.instances[i].queries {
        assert InstanceOk(s, latency, s.instances[i]);
        assert CurrentAt(s.versions, |s.versions| - 1, s.now);
        SetInstanceKeepsInv(s, latency, i, Apply(s, latency, step).instances[i]);
      }
    case Install(i, q, origin) =>
      if i in s.instances && q in s.instances[i].queries && s.now - s.instances[i].queries[q].readAt <= latency {
        assert InstanceOk(s, latency, s.instances[i]);
        var query := s.instances[i].queries[q];
        var c := Copy(query.rows, query.version, s.now);
        assert CurrentAt(s.versions, query.version, query.readAt);
        var x := Instance(Some(c), s.instances[i].queries - {q});
        SetInstanceKeepsInv(s, latency, i, x);
        TellKeepsInv(SetInstance(s, i, x), latency, i, origin, c);
      }
    case Hit(i, origin) =>
      if Apply(s, latency, step) != s {
        assert InstanceOk(s, latency, s.instances[i]);
        TellKeepsInv(s, latency, i, origin, s.instances[i].cache.value);
      }
  }

  lemma {:induction false} RunKeepsInv(s: State, latency: nat, steps: seq<Step>)
    requires Inv(s, latency)
    ensures Inv(Run(s, latency, steps), latency)
    decreases |steps|
  {
    if |steps| > 0 {
      StepKeepsInv(s, latency, steps[0]);
      RunKeepsInv(Apply(s, latency, steps[0]), latency, steps[1..]);
    }
  }

  /** Across any number of instances, every answer equals the table's membership at some instant at most
      60000 + latency milliseconds earlier. */
  lemma AnswersAreRecent(ids: set<InstanceId>, rows: set<Origin>, latency: nat, steps: seq<Step>, k: nat)
    requires k < |Run(Initial(ids, rows), latency, steps).answers|
    ensures var s := Run(Initial(ids, rows), latency, steps);
            var a := s.answers[k];
            exists t: int, v: nat :: a.at - 60_000 - latency <= t <= a.at && CurrentAt(s.versions, v, t)
                                     && (a.allowed <==> a.origin in s.versions[v].rows)
  {
    RunKeepsInv(Initial(ids, rows), latency, steps);
    var s := Run(Initial(ids, rows), latency, steps);
    assert AnswerOk(s.versions, latency, s.answers[k]);
  }

  lemma RunStep(s: State, latency: nat, step: Step, rest: seq<Step>)
    requires HasTable(s) && HasTable(Apply(s, latency, step))
    ensures Run(s, latency, [step] + rest) == Run(Apply(s, latency, step), latency, rest)
  {
    assert ([step] + rest)[1..] == rest;
  }

  /** The answer matches no content of the table after instant `t`. */
  ghost predicate OnlyUpTo(versions: seq<Version>, a: Answer, t: int) {
    forall later: int, v: nat :: t < later && CurrentAt(versions, v, later) ==>
                                   !(a.allowed <==> a.origin in versions[v].rows)
  }

  /** The bound is tight, for every latency: a query reads the empty table just before an origin is added,
      installs as late as it may, and its copy answers for its whole life. The last answer matches no
      table later than 60000 + latency milliseconds before it. */
  lemma AnswersCanBeThatOld(latency: nat, origin: Origin) returns (steps: seq<Step>)
    ensures var s := Run(Initial({0}, {}), latency, steps);
            && |s.answers| > 0
            && var a := s.answers[|s.answers| - 1];
               a.at == 60_000 + latency && OnlyUpTo(s.versions, a, a.at - 60_000 - latency)
  {
    var versions := [Version(0, {}), Version(0, {origin})];
    var s0 := Initial({0}, {});
    var s1 := s0.(instances := map[0 := Instance(None, map[0 := Query({}, 0, 0)])]);
    var s2 := s1.(versions := versions);
    var s3 := s2.(now := latency);
    var first := Answer(0, origin, false, latency, 0);
    var s4 := s3.(instances := map[0 := Instance(Some(Copy({}, 0, latency)), map[])], answers := [first]);
    var s5 := s4.(now := latency + CACHE_TTL_MS);
    var last := Answer(0, origin, false, latency + CACHE_TTL_MS, 0);
    assert Apply(s0, latency, Read(0, 0)) == s1;
    assert {} + {origin} == {origin};
    assert Apply(s1, latency, Add(origin)) == s2;
    assert Apply(s3, latency, Install(0, 0, origin)) == s4;
    assert Apply(s5, latency, Hit(0, origin)) == s5.(answers := [first, last]);
    var f := [Hit(0, origin)] + [];
    var e := [Tick(CACHE_TTL_MS)] + f;
    var d := [Install(0, 0, origin)] + e;
    var c := [Tick(latency)] + d;
    var b := [Add(origin)] + c;
    steps := [Read(0, 0)] + b;
    RunStep(s0, latency, Read(0, 0), b);
    RunStep(s1, latency, Add(origin), c);
    RunStep(s2, latency, Tick(latency), d);
    RunStep(s3, latency, Install(0, 0, origin), e);
    RunStep(s4, latency, Tick(CACHE_TTL_MS), f);
    RunStep(s5, latency, Hit(0, origin), []);
  }

  // ---------- an instance sees its own writes

  /** A query of the instance is still in flight that read the table before version `w`. */
  predicate StaleInFlight(s: State, latency: nat, i: InstanceId, w: nat) {
    i in s.instances && exists q :: q in s.instances[i].queries && s.instances[i].queries[q].version < w
                                    && s.now - s.instances[i].queries[q].readAt <= latency
  }

  /** Instance `i` answers, after state `s`, from a version older than `w`. */
  ghost predicate AnswersStale(s: State, latency: nat, steps: seq<Step>, i: InstanceId, w: nat)
    requires HasTable(s)
  {
    var s' := Run(s, latency, steps);
    exists k :: |s.answers| <= k < |s'.answers| && s'.answers[k].instance == i && s'.answers[k].version < w
  }

  /** Nothing that instance `i` could still install is older than `w`. */
  ghost predicate Fresh(s: State, latency: nat, i: InstanceId, w: nat) {
    && HasTable(s) && w < |s.versions|
    && (i in s.instances ==>
          && (s.instances[i].cache.Some? ==> s.instances[i].cache.value.version >= w)
          && (forall q :: q in s.instances[i].queries && s.now - s.instances[i].queries[q].readAt <= latency ==>
                s.instances[i].queries[q].version >= w))
  }

  lemma StepKeepsFresh(s: State, latency: nat, step: Step, i: InstanceId, w: nat)
    requires Fresh(s, latency, i, w)
    ensures Fresh(Apply(s, latency, step), latency, i, w)
    ensures var s' := Apply(s, latency, step);
            forall k :: |s.answers| <= k < |s'.answers| ==> s'.answers[k].instance != i || s'.answers[k].version >= w
  {
  }

  lemma {:induction false} FreshStaysFresh(s: State, latency: nat, steps: seq<Step>, i: InstanceId, w: nat)
    requires Fresh(s, latency, i, w)
    ensures s.answers <= Run(s, latency, steps).answers
    ensures !AnswersStale(s, latency, steps, i, w)
    decreases |steps|
  {
    if |steps| > 0 {
      var s1 := Apply(s, latency, steps[0]);
      StepKeepsFresh(s, latency, steps[0], i, w);
      ApplyKeepsTable(s, latency, steps[0]);
      FreshStaysFresh(s1, latency, steps[1..], i, w);
      var s' := Run(s, latency, steps);
      forall k | |s.answers| <= k < |s'.answers| && s'.answers[k].instance == i ensures s'.answers[k].version >= w {
        if k < |s1.answers| {
          assert s'.answers[k] == s1.answers[k];
        }
      }
    }
  }

  /** Right after an instance has dropped its copy for its own write (version `w`): it can still answer from
      an older version if and only if one of its queries was in flight across that write. */
  lemma OwnWriteIsSeenIff(s: State, latency: nat, i: InstanceId, w: nat)
    requires HasTable(s) && i in s.instances && w < |s.versions|
    ensures var dropped := Apply(s, latency, Invalidate(i));
            (exists steps :: AnswersStale(dropped, latency, steps, i, w)) <==> StaleInFlight(s, latency, i, w)
  {
    var dropped := Apply(s, latency, Invalidate(i));
    if StaleInFlight(s, latency, i, w) {
      var q :| q in s.instances[i].queries && s.instances[i].queries[q].version < w
               && s.now - s.instances[i].queries[q].readAt <= latency;
      var step := Install(i, q, "");
      var s' := Apply(dropped, latency, step);
      assert Run(dropped, latency, [step]) == Run(s', latency, []) == s';
      assert s'.answers[|dropped.answers|].version < w;
      assert AnswersStale(dropped, latency, [step], i, w);
    } else {
      forall steps ensures !AnswersStale(dropped, latency, steps, i, w) {
        FreshStaysFresh(dropped, latency, steps, i, w);
      }
    }
  }

  predicate Without(steps: seq<Step>, step: Step) {
    forall i :: 0 <= i < |steps| ==> steps[i] != step
  }

  predicate ListedFrom(versions: seq<Version>, w: nat, origin: Origin) {
    forall v :: w <= v < |versions| ==> origin in versions[v].rows
  }

  lemma {:induction false} StaysListed(s: State, latency: nat, steps: seq<Step>, w: nat, origin: Origin)
    requires HasTable(s) && w < |s.versions| && ListedFrom(s.versions, w, origin)
    requires Without(steps, Remove(origin))
    ensures ListedFrom(Run(s, latency, steps).versions, w, origin)
    decreases |steps|
  {
    if |steps| > 0 {
      ApplyKeepsTable(s, latency, steps[0]);
      StaysListed(Apply(s, latency, steps[0]), latency, steps[1..], w, origin);
    }
  }

  lemma {:induction false} RunKeepsInstance(s: State, latency: nat, steps: seq<Step>, i: InstanceId)
    requires HasTable(s) && i in s.instances
    ensures i in Run(s, latency, steps).instances && |s.versions| <= |Run(s, latency, steps).versions|
    decreases |steps|
  {
    if |steps| > 0 {
      ApplyKeepsTable(s, latency, steps[0]);
      RunKeepsInstance(Apply(s, latency, steps[0]), latency, steps[1..], i);
    }
  }

  /** An instance that adds an origin, and drops its copy after any number of other steps, with none of its
      queries from before the write still in flight, answers "allowed" for it from then on, as long as
      nobody removes it. */
  lemma OwnAddTakesEffect(s: State, latency: nat, i: InstanceId, origin: Origin, between: seq<Step>, after: seq<Step>,
                          k: nat)
    requires Inv(s, latency) && i in s.instances && origin !in Latest(s).rows
    requires Without(between, Remove(origin)) && Without(after, Remove(origin))
    requires var written := Run(Apply(s, latency, Add(origin)), latency, between);
             && !StaleInFlight(written, latency, i, |s.versions|)
             && var end := Run(Apply(written, latency, Invalidate(i)), latency, after);
                && |written.answers| <= k < |end.answers|
                && end.answers[k].instance == i && end.answers[k].origin == origin
    ensures var written := Run(Apply(s, latency, Add(origin)), latency, between);
            Run(Apply(written, latency, Invalidate(i)), latency, after).answers[k].allowed
  {
    var w := |s.versions|;
    var added := Apply(s, latency, Add(origin));
    var written := Run(added, latency, between);
    var dropped := Apply(written, latency, Invalidate(i));
    StepKeepsInv(s, latency, Add(origin));
    RunKeepsInv(added, latency, between);
    StepKeepsInv(written, latency, Invalidate(i));
    RunKeepsInv(dropped, latency, after);
    RunKeepsInstance(added, latency, between, i);
    assert ListedFrom(added.versions, w, origin);
    StaysListed(added, latency, between, w, origin);
    StaysListed(dropped, latency, after, w, origin);
    assert Fresh(dropped, latency, i, w);
    FreshStaysFresh(dropped, latency, after, i, w);
    var end := Run(dropped, latency, after);
    assert AnswerOk(end.versions, latency, end.answers[k]);
  }

  predicate UnlistedFrom(versions: seq<Version>, w: nat, origin: Origin) {
    forall v :: w <= v < |versions| ==> origin !in versions[v].rows
  }

  lemma {:induction false} StaysUnlisted(s: State, latency: nat, steps: seq<Step>, w: nat, origin: Origin)
    requires HasTable(s) && w < |s.versions| && UnlistedFrom(s.versions, w, origin)
    requires Without(steps, Add(origin))
    ensures UnlistedFrom(Run(s, latency, steps).versions, w, origin)
    decreases |steps|
  {
    if |steps| > 0 {
      ApplyKeepsTable(s, latency, steps[0]);
      StaysUnlisted(Apply(s, latency, steps[0]), latency, steps[1..], w, origin);
    }
  }

  /** And one that removes an origin answers "not allowed" for it, as long as nobody adds it again. */
  lemma OwnRemoveTakesEffect(s: State, latency: nat, i: InstanceId, origin: Origin, between: seq<Step>,
                             after: seq<Step>, k: nat)
    requires Inv(s, latency) && i in s.instances && origin in Latest(s).rows
    requires Without(between, Add(origin)) && Without(after, Add(origin))
    requires var written := Run(Apply(s, latency, Remove(origin)), latency, between);
             && !StaleInFlight(written, latency, i, |s.versions|)
             && var end := Run(Apply(written, latency, Invalidate(i)), latency, after);
                && |written.answers| <= k < |end.answers|
                && end.answers[k].instance == i && end.answers[k].origin == origin
    ensures var written := Run(Apply(s, latency, Remove(origin)), latency, between);
            !Run(Apply(written, latency, Invalidate(i)), latency, after).answers[k].allowed
  {
    var w := |s.versions|;
    var removed := Apply(s, latency, Remove(origin));
    var written := Run(removed, latency, between);
    var dropped := Apply(written, latency, Invalidate(i));
    StepKeepsInv(s, latency, Remove(origin));
    RunKeepsInv(removed, latency, between);
    StepKeepsInv(written, latency, Invalidate(i));
    RunKeepsInv(dropped, latency, after);
    RunKeepsInstance(removed, latency, between, i);
    assert UnlistedFrom(removed.versions, w, origin);
    StaysUnlisted(removed, latency, between, w, origin);
    StaysUnlisted(dropped, latency, after, w, origin);
    assert Fresh(dropped, latency, i, w);
    FreshStaysFresh(dropped, latency, after, i, w);
    var end := Run(dropped, latency, after);
    assert AnswerOk(end.versions, latency, end.answers[k]);
  }
}
