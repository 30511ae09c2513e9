/** Token accounting: the collector that watches one session
    (internal/copilot/telemetry.go) and the total reported for a run
    (internal/gitlab/labels.go), in 64-bit arithmetic. */
module Tokens {
  import opened Domain

  // ----- Sums and maxima over finite sets -----

  ghost function SumOver<T>(s: set<T>, amount: T -> nat): nat {
    if s == {} then 0
    else
      var x :| x in s;
      amount(x) + SumOver(s - {x}, amount)
  }

  lemma {:induction false} SumRemove<T>(s: set<T>, amount: T -> nat, y: T)
    requires y in s
    ensures SumOver(s, amount) == amount(y) + SumOver(s - {y}, amount)
    decreases |s|
  {
    var x :| x in s && SumOver(s, amount) == amount(x) + SumOver(s - {x}, amount);
    if x != y {
      SumRemove(s - {x}, amount, y);
      SumRemove(s - {y}, amount, x);
      assert s - {x} - {y} == s - {y} - {x};
    }
  }

  lemma SumInsert<T>(s: set<T>, amount: T -> nat, y: T)
    ensures SumOver(s + {y}, amount) == SumOver(s, amount) + if y in s then 0 else amount(y)
  {
    if y in s {
      assert s + {y} == s;
    } else {
      SumRemove(s + {y}, amount, y);
      assert s + {y} - {y} == s;
    }
  }

  lemma {:induction false} SumSubset<T>(s: set<T>, t: set<T>, amount: T -> nat)
    requires s <= t
    ensures SumOver(s, amount) <= SumOver(t, amount)
    decreases |t|
  {
    if s != t {
      var y :| y in t && y !in s;
      SumRemove(t, amount, y);
      SumSubset(s, t - {y}, amount);
    }
  }

  lemma {:induction false} SumAgrees<T>(s: set<T>, f: T -> nat, g: T -> nat)
    requires forall x :: x in s ==> f(x) == g(x)
    ensures SumOver(s, f) == SumOver(s, g)
    decreases |s|
  {
    if s != {} {
      var x :| x in s;
      SumRemove(s, f, x);
      SumRemove(s, g, x);
      SumAgrees(s - {x}, f, g);
    }
  }

  ghost function MaxOver<T>(s: set<T>, amount: T -> nat): nat {
    if s == {} then 0
    else
      var x :| x in s;
      var rest := MaxOver(s - {x}, amount);
      if amount(x) > rest then amount(x) else rest
  }

  lemma {:induction false} MaxIsMax<T>(s: set<T>, amount: T -> nat)
    ensures forall x :: x in s ==> amount(x) <= MaxOver(s, amount)
    ensures s != {} ==> exists x :: x in s && amount(x) == MaxOver(s, amount)
    ensures s == {} ==> MaxOver(s, amount) == 0
    decreases |s|
  {
    if s != {} {
      var x :| x in s && MaxOver(s, amount) ==
        (var rest := MaxOver(s - {x}, amount); if amount(x) > rest then amount(x) else rest);
      MaxIsMax(s - {x}, amount);
    }
  }

  lemma MaxInsert<T>(s: set<T>, amount: T -> nat, y: T)
    ensures MaxOver(s + {y}, amount) ==
      if amount(y) > MaxOver(s, amount) then amount(y) else MaxOver(s, amount)
  {
    MaxIsMax(s, amount);
    MaxIsMax(s + {y}, amount);
  }

  // ----- 64-bit addition -----

  const MAX_UINT64: Uint64 := 0xffff_ffff_ffff_ffff

  function AddUint64(left: Uint64, right: Uint64): (r: Result<Uint64>)
    ensures r.Ok? <==> left + right < UINT64_LIMIT
    ensures r.Ok? ==> r.value == left + right
  {
    if MAX_UINT64 - left < right then Err else Ok(left + right)
  }

  // ----- What a set of usage events adds up to -----

  function Counted(e: UsageEvent): nat {
    if e.total != 0 then e.total else e.input + e.output
  }

  function UsageEventTotal(e: UsageEvent): (r: Result<Uint64>)
    ensures r.Ok? <==> e.input + e.output < UINT64_LIMIT
    ensures r.Ok? ==> r.value == Counted(e)
  {
    var components := AddUint64(e.input, e.output);
    if components.Err? then Err
    else if e.total != 0 then Ok(e.total)
    else components
  }

  function DeltasOf(s: set<UsageEvent>, session: string): set<UsageEvent> {
    set e | e in s && e.session == session && !e.cumulative
  }

  function CumulativesOf(s: set<UsageEvent>, session: string): set<UsageEvent> {
    set e | e in s && e.session == session && e.cumulative
  }

  /** A session is worth its largest cumulative event, or else all its deltas. */
  ghost function SessionTokens(s: set<UsageEvent>, session: string): nat {
    if CumulativesOf(s, session) != {} then MaxOver(CumulativesOf(s, session), Counted)
    else SumOver(DeltasOf(s, session), Counted)
  }

  function SessionsOf(s: set<UsageEvent>): set<string> {
    set e | e in s :: e.session
  }

  ghost function Reported(s: set<UsageEvent>): nat {
    SumOver(SessionsOf(s), session => SessionTokens(s, session))
  }

  predicate NamedEvent(e: UsageEvent) {
    e.id != "" && e.session != "" && e.input + e.output < UINT64_LIMIT
  }

  predicate NamedOnce(s: set<UsageEvent>) {
    && (forall e :: e in s ==> NamedEvent(e))
    && (forall a, b :: a in s && b in s && a.id == b.id ==> a == b)
  }

  /** When the events can be reported at all: every event is named, no name has two
      different counters, and neither a session's deltas nor the total overflow. */
  ghost predicate Countable(s: set<UsageEvent>) {
    && NamedOnce(s)
    && (forall session :: session in SessionsOf(s) ==> SumOver(DeltasOf(s, session), Counted) < UINT64_LIMIT)
    && Reported(s) < UINT64_LIMIT
  }

  // ----- What such a total means -----

  /** Usage can be reported exactly when every event names itself and its session and its parts add up,
      one name never stands for two events, and neither the calls of a session nor all sessions overflow. */
  lemma ReportableExactly(us: seq<UsageEvent>)
    ensures Countable(SetOf(us)) <==>
      && (forall i :: 0 <= i < |us| ==>
            us[i].id != "" && us[i].session != "" && us[i].input + us[i].output < 0x1_0000_0000_0000_0000)
      && (forall i, j :: 0 <= i < |us| && 0 <= j < |us| && us[i].id == us[j].id ==> us[i] == us[j])
      && (forall i :: 0 <= i < |us| ==>
            SumOver(DeltasOf(SetOf(us), us[i].session), Counted) < 0x1_0000_0000_0000_0000)
      && Reported(SetOf(us)) < 0x1_0000_0000_0000_0000
  {
    hide DeltasOf, Reported, SumOver;
    var s := SetOf(us);
    forall i | 0 <= i < |us| ensures us[i] in s && us[i].session in SessionsOf(s) {}
    forall e | e in s ensures exists i :: 0 <= i < |us| && us[i] == e {}
  }

  // The events of a session that count all its tokens so far, and those that count one call.
  predicate CountsAll(e: UsageEvent, s: set<UsageEvent>, session: string) {
    e in s && e.session == session && e.cumulative
  }

  predicate CountsOneCall(e: UsageEvent, s: set<UsageEvent>, session: string) {
    e in s && e.session == session && !e.cumulative
  }

  // What an event reports in all, or its two parts together.
  function Worth(e: UsageEvent): nat {
    if e.total == 0 then e.input + e.output else e.total
  }

  lemma WorthIsCounted(e: UsageEvent)
    ensures Worth(e) == Counted(e)
  {
  }

  /** A session is worth the largest of its cumulative events, if it has any, and nothing
      without an event. */
  lemma SessionIsLargest(s: set<UsageEvent>, session: string)
    ensures (exists e :: CountsAll(e, s, session)) ==>
      && (exists e :: CountsAll(e, s, session) && Worth(e) == SessionTokens(s, session))
      && (forall e :: CountsAll(e, s, session) ==> Worth(e) <= SessionTokens(s, session))
    ensures session !in SessionsOf(s) ==> SessionTokens(s, session) == 0
  {
    hide Counted, Worth, MaxOver, SumOver;
    var all := CumulativesOf(s, session);
    MaxIsMax(all, Counted);
    forall e | CountsAll(e, s, session) ensures e in all && Worth(e) == Counted(e) { WorthIsCounted(e); }
    if e :| CountsAll(e, s, session) {
      var x :| x in all && Counted(x) == MaxOver(all, Counted);
      assert CountsAll(x, s, session);
      WorthIsCounted(x);
    }
    if session !in SessionsOf(s) {
      assert all == {} && DeltasOf(s, session) == {};
      NothingSums();
    }
  }

  lemma NothingSums()
    ensures SumOver<UsageEvent>({}, Counted) == 0
  {
  }

  /** Without a cumulative event every further one of its calls adds its worth, and an event of
      another session nothing. */
  lemma CallAdds(s: set<UsageEvent>, session: string, e: UsageEvent)
    requires e !in s && !(exists x :: CountsAll(x, s + {e}, session))
    ensures SessionTokens(s + {e}, session) ==
      SessionTokens(s, session) + if CountsOneCall(e, s + {e}, session) then Worth(e) else 0
  {
    hide Counted, Worth, MaxOver, SumOver;
    var more := s + {e};
    assert forall x :: x in CumulativesOf(more, session) || x in CumulativesOf(s, session) ==>
      CountsAll(x, more, session);
    assert CumulativesOf(more, session) == {} && CumulativesOf(s, session) == {};
    WorthIsCounted(e);
    if e.session == session {
      assert e.cumulative ==> CountsAll(e, more, session);
      assert DeltasOf(more, session) == DeltasOf(s, session) + {e};
      SumInsert(DeltasOf(s, session), Counted, e);
    } else {
      assert DeltasOf(more, session) == DeltasOf(s, session);
    }
  }

  lemma SessionOfOthers(s: set<UsageEvent>, others: set<UsageEvent>, session: string)
    requires forall e :: e in others ==> e.session != session
    ensures SessionTokens(s + others, session) == SessionTokens(s, session)
  {
    assert CumulativesOf(s + others, session) == CumulativesOf(s, session);
    assert DeltasOf(s + others, session) == DeltasOf(s, session);
  }

  /** A session whose events come on top of those of others adds what it is worth. */
  lemma SessionAdds(s: set<UsageEvent>, own: set<UsageEvent>, session: string)
    requires own != {} && forall e :: e in own ==> e.session == session
    requires session !in SessionsOf(s)
    ensures Reported(s + own) == Reported(s) + SessionTokens(own, session)
  {
    hide SumOver, SessionTokens;
    var all := s + own;
    var before, now := x => SessionTokens(s, x), x => SessionTokens(all, x);
    var e :| e in own;
    assert SessionsOf(all) == SessionsOf(s) + {session} by {
      assert e.session in SessionsOf(all);
      assert forall x :: x in SessionsOf(s) ==> x in SessionsOf(all);
    }
    forall x | x in SessionsOf(s) ensures now(x) == before(x) { SessionOfOthers(s, own, x); }
    SumAgrees(SessionsOf(s), now, before);
    SumInsert(SessionsOf(s), now, session);
    assert forall x :: x in s ==> x.session in SessionsOf(s);
    assert own + s == all;
    SessionOfOthers(own, s, session);
  }

  datatype SessionUsage = SessionUsage(delta: Uint64, cumulativeMax: Uint64, hasCumulative: bool)

  const NO_USAGE := SessionUsage(0, 0, false)

  ghost predicate Tracks(u: SessionUsage, s: set<UsageEvent>, session: string) {
    && u.delta == SumOver(DeltasOf(s, session), Counted)
    && (u.hasCumulative <==> CumulativesOf(s, session) != {})
    && u.cumulativeMax == MaxOver(CumulativesOf(s, session), Counted)
  }

  function At(sessions: map<string, SessionUsage>, session: string): SessionUsage {
    if session in sessions then sessions[session] else NO_USAGE
  }

  function ValueOf(u: SessionUsage): Uint64 {
    if u.hasCumulative then u.cumulativeMax else u.delta
  }

  lemma TracksEmpty(session: string)
    ensures Tracks(NO_USAGE, {}, session)
  {
    assert DeltasOf({}, session) == {} && CumulativesOf({}, session) == {};
  }

  // One new event changes its own session only.
  lemma TracksInsert(u: SessionUsage, s: set<UsageEvent>, session: string, e: UsageEvent, value: Uint64)
    requires Tracks(u, s, session) && e !in s && value == Counted(e)
    ensures e.session != session ==> Tracks(u, s + {e}, session)
    ensures e.session == session && e.cumulative ==>
      Tracks(u.(hasCumulative := true, cumulativeMax := if value > u.cumulativeMax then value else u.cumulativeMax),
             s + {e}, session)
    ensures e.session == session && !e.cumulative ==>
      && SumOver(DeltasOf(s + {e}, session), Counted) == u.delta + value
      && (u.delta + value < UINT64_LIMIT ==> Tracks(u.(delta := u.delta + value), s + {e}, session))
  {
    var t := s + {e};
    if e.session != session {
      assert DeltasOf(t, session) == DeltasOf(s, session);
      assert CumulativesOf(t, session) == CumulativesOf(s, session);
    } else if e.cumulative {
      assert DeltasOf(t, session) == DeltasOf(s, session);
      assert CumulativesOf(t, session) == CumulativesOf(s, session) + {e};
      MaxInsert(CumulativesOf(s, session), Counted, e);
    } else {
      assert DeltasOf(t, session) == DeltasOf(s, session) + {e};
      assert CumulativesOf(t, session) == CumulativesOf(s, session);
      SumInsert(DeltasOf(s, session), Counted, e);
    }
  }

  ghost predicate Remembers(events: map<string, UsageEvent>, s: set<UsageEvent>) {
    && (forall id :: id in events ==> events[id].id == id && events[id] in s)
    && (forall e :: e in s ==> e.id in events && events[e.id] == e)
  }

  ghost predicate Summed(sessions: map<string, SessionUsage>, s: set<UsageEvent>) {
    sessions.Keys == SessionsOf(s) && forall session :: Tracks(At(sessions, session), s, session)
  }

  ghost predicate Collected(events: map<string, UsageEvent>, sessions: map<string, SessionUsage>, s: set<UsageEvent>) {
    Remembers(events, s) && Summed(sessions, s) && forall e :: e in s ==> NamedEvent(e)
  }

  lemma SummedInsert(sessions: map<string, SessionUsage>, s: set<UsageEvent>, e: UsageEvent, u: SessionUsage)
    requires Summed(sessions, s) && e !in s && NamedEvent(e)
    requires Tracks(u, s + {e}, e.session)
    ensures Summed(sessions[e.session := u], s + {e})
  {
    var wider := sessions[e.session := u];
    assert SessionsOf(s + {e}) == SessionsOf(s) + {e.session} == wider.Keys;
    forall session ensures Tracks(At(wider, session), s + {e}, session) {
      if session != e.session {
        assert At(wider, session) == At(sessions, session);
        TracksInsert(At(sessions, session), s, session, e, UsageEventTotal(e).value);
      }
    }
  }

  lemma TooManyDeltas(s: set<UsageEvent>, all: set<UsageEvent>, e: UsageEvent)
    requires s <= all && e in s && SumOver(DeltasOf(s, e.session), Counted) >= UINT64_LIMIT
    ensures !Countable(all)
  {
    SumSubset(DeltasOf(s, e.session), DeltasOf(all, e.session), Counted);
  }

  method AddToSession(session: SessionUsage, e: UsageEvent, value: Uint64, ghost before: set<UsageEvent>)
    returns (r: Result<SessionUsage>)
    requires Tracks(session, before, e.session) && e !in before && value == Counted(e)
    ensures r.Err? ==> SumOver(DeltasOf(before + {e}, e.session), Counted) >= UINT64_LIMIT
    ensures r.Ok? ==> Tracks(r.value, before + {e}, e.session)
  {
    hide Tracks;
    TracksInsert(session, before, e.session, e, value);
    if e.cumulative {
      return Ok(session.(hasCumulative := true,
                         cumulativeMax := if value > session.cumulativeMax then value else session.cumulativeMax));
    }
    var delta := AddUint64(session.delta, value);
    return if delta.Ok? then Ok(session.(delta := delta.value)) else Err;
  }

  // Events are remembered by id: an exact duplicate is skipped, a conflicting one is an error.
  method CollectEvent(events: map<string, UsageEvent>, sessions: map<string, SessionUsage>, e: UsageEvent,
                      ghost before: set<UsageEvent>, ghost all: set<UsageEvent>)
    returns (ok: bool, more: map<string, UsageEvent>, wider: map<string, SessionUsage>)
    requires Collected(events, sessions, before) && before + {e} <= all
    ensures !ok ==> !Countable(all)
    ensures ok ==> Collected(more, wider, before + {e})
  {
    hide Countable, Tracks, SessionsOf;
    ok, more, wider := false, events, sessions;
    if e.id == "" || e.session == "" {
      NotCountable(e, e, all);
      return;
    }
    if e.id in events {
      if events[e.id] != e {
        NotCountable(e, events[e.id], all);
        return;
      }
      assert before + {e} == before;
      return true, events, sessions;
    }
    var value := UsageEventTotal(e);
    if value.Err? {
      NotCountable(e, e, all);
      return;
    }
    var session := AddToSession(At(sessions, e.session), e, value.value, before);
    if session.Err? {
      TooManyDeltas(before + {e}, all, e);
      return;
    }
    SummedInsert(sessions, before, e, session.value);
    more := events[e.id := e];
    wider := sessions[e.session := session.value];
    ok := true;
  }

  lemma NothingCollected()
    ensures Collected(map[], map[], {})
  {
    forall session ensures Tracks(At(map[], session), {}, session) { TracksEmpty(session); }
  }

  method CollectUsage(usage: seq<UsageEvent>)
    returns (ok: bool, events: map<string, UsageEvent>, sessions: map<string, SessionUsage>)
    ensures !ok ==> !Countable(SetOf(usage))
    ensures ok ==> Collected(events, sessions, SetOf(usage))
  {
    hide Countable, Collected;
    ok, events, sessions := true, map[], map[];
    NothingCollected();
    assert SetOf(usage[..0]) == {};
    for i := 0 to |usage|
      invariant ok && Collected(events, sessions, SetOf(usage[..i]))
    {
      assert usage[..i + 1] == usage[..i] + [usage[i]];
      SetOfAppend(usage[..i], usage[i]);
      ok, events, sessions := CollectEvent(events, sessions, usage[i], SetOf(usage[..i]), SetOf(usage));
      if !ok { return; }
    }
    assert usage[..|usage|] == usage;
  }

  lemma NotCountable(a: UsageEvent, b: UsageEvent, s: set<UsageEvent>)
    requires a in s && b in s
    requires !NamedEvent(a) || (a.id == b.id && a != b)
    ensures !Countable(s)
  {
  }

  lemma TrackedValue(u: SessionUsage, s: set<UsageEvent>, session: string)
    requires Tracks(u, s, session)
    ensures ValueOf(u) == SessionTokens(s, session)
  {
  }

  lemma CollectedIsCountable(events: map<string, UsageEvent>, sessions: map<string, SessionUsage>, s: set<UsageEvent>)
    requires Collected(events, sessions, s)
    ensures Countable(s) <==> Reported(s) < UINT64_LIMIT
  {
    hide Reported;
    forall session ensures SumOver(DeltasOf(s, session), Counted) < UINT64_LIMIT {
      assert Tracks(At(sessions, session), s, session);
    }
  }

  method SumSessions(sessions: map<string, SessionUsage>, ghost all: set<UsageEvent>) returns (r: Result<Uint64>)
    requires sessions.Keys == SessionsOf(all)
    requires forall session :: Tracks(At(sessions, session), all, session)
    ensures r.Ok? <==> Reported(all) < UINT64_LIMIT
    ensures r.Ok? ==> r.value == Reported(all)
  {
    hide SessionTokens, Tracks;
    ghost var tokens := session => SessionTokens(all, session);
    SumAgrees(SessionsOf(all), tokens, session => SessionTokens(all, session));
    var total: Uint64 := 0;
    var rest := sessions.Keys;
    ghost var counted: set<string> := {};
    while rest != {}
      invariant counted !! rest && counted + rest == SessionsOf(all)
      invariant total == SumOver(counted, tokens)
      decreases |rest|
    {
      var session :| session in rest;
      SumInsert(counted, tokens, session);
      counted := counted + {session};
      assert At(sessions, session) == sessions[session];
      TrackedValue(sessions[session], all, session);
      var sum := AddUint64(total, ValueOf(sessions[session]));
      if sum.Err? {
        SumSubset(counted, SessionsOf(all), tokens);
        return Err;
      }
      total := sum.value;
      rest := rest - {session};
    }
    assert counted == SessionsOf(all);
    return Ok(total);
  }

  /** The total of a run: nothing when usage is incomplete, otherwise the exact sum
      over sessions, or an error when it cannot be reported. It depends on the set of
      events alone, so neither their order nor exact duplicates matter. */
  method ReportedTokenUsage(t: Telemetry) returns (r: Result<Option<Uint64>>)
    ensures !t.usageComplete || |t.usage| == 0 ==> r == Ok(None)
    ensures t.usageComplete && |t.usage| > 0 ==>
      && (r.Ok? <==> Countable(SetOf(t.usage)))
      && (r.Ok? ==> r.value == Some(Reported(SetOf(t.usage))))
  {
    hide Reported, Tracks, SetOf, Countable;
    if !t.usageComplete || |t.usage| == 0 { return Ok(None); }
    var ok, events, sessions := CollectUsage(t.usage);
    if !ok { return Err; }
    CollectedIsCountable(events, sessions, SetOf(t.usage));
    var total := SumSessions(sessions, SetOf(t.usage));
    return if total.Ok? then Ok(Some(total.value)) else Err;
  }

  // ----- The collector of one session -----

  const INT64_LIMIT: nat := 0x8000_0000_0000_0000

  type Int64 = x: int | 0 - INT64_LIMIT as int <= x < INT64_LIMIT

  // What the runtime reports. `id` is the API call id, or the event's own id without one.
  datatype Observation =
    | CallStarted(model: string)
    | CallUsed(id: string, model: string, byok: Option<bool>, input: Option<Int64>, output: Option<Int64>)

  datatype Limits = Limits(model: string, maxInput: Uint64, maxOutput: Uint64)

  function Nonnegative(o: Option<Int64>): (r: Result<Uint64>)
    ensures r.Ok? <==> o.Some? && o.value >= 0
    ensures r.Ok? ==> r.value == o.value < INT64_LIMIT
  {
    if o.None? || o.value < 0 then Err else Ok(o.value)
  }

  function Amount(o: Option<Int64>): nat {
    if o.None? || o.value < 0 then 0 else o.value
  }

  // ----- The true sums over distinct calls, in unbounded arithmetic -----

  function CallIds(log: seq<Observation>): set<string> {
    set o | o in log && o.CallUsed? :: o.id
  }

  // A call counts the first time its id is seen.
  predicate NewCall(log: seq<Observation>, o: Observation) {
    o.CallUsed? && o.id !in CallIds(log)
  }

  function TrueInput(log: seq<Observation>): nat {
    if |log| == 0 then 0
    else
      var front, o := log[..|log| - 1], log[|log| - 1];
      TrueInput(front) + if NewCall(front, o) then Amount(o.input) else 0
  }

  function TrueOutput(log: seq<Observation>): nat {
    if |log| == 0 then 0
    else
      var front, o := log[..|log| - 1], log[|log| - 1];
      TrueOutput(front) + if NewCall(front, o) then Amount(o.output) else 0
  }

  function UsageOf(log: seq<Observation>, session: string): seq<UsageEvent> {
    if |log| == 0 then []
    else
      var front, o := log[..|log| - 1], log[|log| - 1];
      UsageOf(front, session) +
      if NewCall(front, o)
      then [UsageEvent(o.id, session, Amount(o.input), Amount(o.output), Amount(o.input) + Amount(o.output), false)]
      else []
  }

  predicate FullyKnown(log: seq<Observation>) {
    |log| == 0 ||
    (var front, o := log[..|log| - 1], log[|log| - 1];
     FullyKnown(front) && KnownCall(front, o))
  }

  predicate KnownCall(front: seq<Observation>, o: Observation) {
    o.CallUsed? ==>
      o.byok.Some? && (NewCall(front, o) ==> Nonnegative(o.input).Ok? && Nonnegative(o.output).Ok?)
  }

  // ----- When the session must be cancelled -----

  // A 64-bit counter wraps around.
  function Wrap(total: nat): Uint64 {
    total % UINT64_LIMIT
  }

  lemma WrapAdd(a: nat, b: nat)
    ensures Wrap(Wrap(a) + b) == Wrap(a + b)
  {
  }

  lemma WrapSmall(a: nat)
    requires a < UINT64_LIMIT
    ensures Wrap(a) == a
  {
  }

  predicate Exceeds(tokens: Uint64, maximum: Uint64) {
    maximum > 0 && tokens > maximum
  }

  predicate WrongModel(model: string, limits: Limits) {
    model != "" && model != limits.model
  }

  predicate FailsOn(front: seq<Observation>, o: Observation, limits: Limits) {
    || WrongModel(o.model, limits)
    || (o.CallUsed? && o.byok == Some(false))
    || (NewCall(front, o) &&
         (|| Exceeds(Wrap(TrueInput(front + [o])), limits.maxInput)
          || Exceeds(Wrap(TrueOutput(front + [o])), limits.maxOutput)))
  }

  predicate HasFailed(log: seq<Observation>, limits: Limits) {
    |log| > 0 &&
    (HasFailed(log[..|log| - 1], limits) || FailsOn(log[..|log| - 1], log[|log| - 1], limits))
  }

  class EventCollector {
    const session: string
    const limits: Limits
    var usageIds: set<string>
    var usage: seq<UsageEvent>
    var usageComplete: bool
    var sawUsage: bool
    var inputTokens: Uint64
    var outputTokens: Uint64
    var integrity: bool
    var cancelled: nat
    ghost var log: seq<Observation>

    ghost predicate Valid()
      reads this
    {
      && usageIds == CallIds(log)
      && usage == UsageOf(log, session)
      && (usageComplete <==> FullyKnown(log))
      && (sawUsage <==> CallIds(log) != {})
      && inputTokens == Wrap(TrueInput(log))
      && outputTokens == Wrap(TrueOutput(log))
      && (integrity <==> !HasFailed(log, limits))
      && cancelled == if integrity then 0 else 1
    }

    constructor (session: string, limits: Limits)
      ensures Valid() && log == [] && this.session == session && this.limits == limits
    {
      this.session := session;
      this.limits := limits;
      usageIds := {};
      usage := [];
      usageComplete := true;
      sawUsage := false;
      inputTokens := 0;
      outputTokens := 0;
      integrity := true;
      cancelled := 0;
      log := [];
    }

    // The first failure cancels the session; later ones change nothing.
    method Fail()
      modifies this`integrity, this`cancelled
      ensures !integrity && cancelled == old(cancelled) + if old(integrity) then 1 else 0
    {
      if integrity {
        integrity := false;
        cancelled := cancelled + 1;
      }
    }

    method ObserveModel(model: string)
      modifies this`integrity, this`cancelled
      ensures integrity <==> old(integrity) && !WrongModel(model, limits)
      ensures cancelled == old(cancelled) + if old(integrity) && !integrity then 1 else 0
    {
      if model == "" { return; }
      if model != limits.model { Fail(); }
    }

    method CountCall(o: Observation)
      requires o.CallUsed? && o.id !in usageIds
      modifies this`usageIds, this`usage, this`usageComplete, this`sawUsage
      modifies this`inputTokens, this`outputTokens, this`integrity, this`cancelled
      ensures usageIds == old(usageIds) + {o.id} && sawUsage
      ensures usage == old(usage) +
        [UsageEvent(o.id, session, Amount(o.input), Amount(o.output), Amount(o.input) + Amount(o.output), false)]
      ensures usageComplete <==> old(usageComplete) && Nonnegative(o.input).Ok? && Nonnegative(o.output).Ok?
      ensures inputTokens == Wrap(old(inputTokens) + Amount(o.input))
      ensures outputTokens == Wrap(old(outputTokens) + Amount(o.output))
      ensures integrity <==>
        old(integrity) && !Exceeds(inputTokens, limits.maxInput) && !Exceeds(outputTokens, limits.maxOutput)
      ensures cancelled == old(cancelled) + if old(integrity) && !integrity then 1 else 0
    {
      hide Wrap;
      usageIds := usageIds + {o.id};
      sawUsage := true;
      var input, output := Nonnegative(o.input), Nonnegative(o.output);
      if input.Err? || output.Err? { usageComplete := false; }
      var i, j := if input.Ok? then input.value else 0, if output.Ok? then output.value else 0;
      inputTokens := Wrap(inputTokens + i);
      outputTokens := Wrap(outputTokens + j);
      WrapSmall(i + j);
      usage := usage + [UsageEvent(o.id, session, i, j, Wrap(i + j), false)];
      if (limits.maxInput > 0 && inputTokens > limits.maxInput)
         || (limits.maxOutput > 0 && outputTokens > limits.maxOutput) {
        Fail();
      }
    }

    method Handle(o: Observation)
      requires Valid()
      modifies this
      ensures Valid() && log == old(log) + [o]
    {
      hide Wrap, TrueInput, TrueOutput, UsageOf, FullyKnown, HasFailed;
      ghost var front := log;
      Appended(front, o, session, limits);
      ObserveModel(o.model);
      match o {
        case CallStarted(_) =>
        case CallUsed(id, _, byok, _, _) =>
          if byok == Some(false) { Fail(); }
          if byok.None? { usageComplete := false; }
          if id !in usageIds {
            WrapAdd(TrueInput(front), Amount(o.input));
            WrapAdd(TrueOutput(front), Amount(o.output));
            CountCall(o);
          }
      }
      log := log + [o];
    }

    method UsageReport() returns (t: Telemetry)
      requires Valid()
      ensures t.usage == UsageOf(log, session)
      ensures t.usageComplete <==> CallIds(log) != {} && FullyKnown(log)
    {
      t := Telemetry([limits.model], [], [], usage, sawUsage && usageComplete);
    }
  }

  // Every specification function, one observation further.
  lemma Appended(front: seq<Observation>, o: Observation, session: string, limits: Limits)
    ensures CallIds(front + [o]) == CallIds(front) + if o.CallUsed? then {o.id} else {}
    ensures TrueInput(front + [o]) == TrueInput(front) + if NewCall(front, o) then Amount(o.input) else 0
    ensures TrueOutput(front + [o]) == TrueOutput(front) + if NewCall(front, o) then Amount(o.output) else 0
    ensures UsageOf(front + [o], session) == UsageOf(front, session) +
      (if NewCall(front, o)
       then [UsageEvent(o.id, session, Amount(o.input), Amount(o.output), Amount(o.input) + Amount(o.output), false)]
       else [])
    ensures FullyKnown(front + [o]) <==> FullyKnown(front) && KnownCall(front, o)
    ensures HasFailed(front + [o], limits) <==> HasFailed(front, limits) || FailsOn(front, o, limits)
  {
    assert (front + [o])[..|front|] == front;
  }

  // ----- What was counted, and when a session fails -----

  // The first report of its call.
  predicate FirstReport(log: seq<Observation>, i: nat)
    requires i < |log|
  {
    log[i].CallUsed? && forall j :: 0 <= j < i && log[j].CallUsed? ==> log[j].id != log[i].id
  }

  function Positive(o: Option<Int64>): nat {
    if o.Some? && o.value > 0 then o.value else 0
  }

  // What the first `n` observations report of input and output, every call once.
  function InputOf(log: seq<Observation>, n: nat): nat
    requires n <= |log|
  {
    if n == 0 then 0
    else InputOf(log, n - 1) + if FirstReport(log, n - 1) then Positive(log[n - 1].input) else 0
  }

  function OutputOf(log: seq<Observation>, n: nat): nat
    requires n <= |log|
  {
    if n == 0 then 0
    else OutputOf(log, n - 1) + if FirstReport(log, n - 1) then Positive(log[n - 1].output) else 0
  }

  lemma FirstIsNew(log: seq<Observation>, n: nat)
    requires n < |log|
    ensures FirstReport(log, n) <==> NewCall(log[..n], log[n])
  {
    var front := log[..n];
    if log[n].CallUsed? && log[n].id in CallIds(front) {
      var o :| o in front && o.CallUsed? && o.id == log[n].id;
      var j :| 0 <= j < n && front[j] == o;
      assert log[j] == o && !FirstReport(log, n);
    }
    if NewCall(front, log[n]) {
      forall j | 0 <= j < n && log[j].CallUsed? ensures log[j].id != log[n].id { assert front[j] in front; }
    }
  }

  /** The counters hold what the distinct calls report, each once, modulo 2^64. */
  lemma {:induction false} CountersAreTrue(log: seq<Observation>, n: nat)
    requires n <= |log|
    ensures TrueInput(log[..n]) == InputOf(log, n) && TrueOutput(log[..n]) == OutputOf(log, n)
  {
    if n > 0 {
      CountersAreTrue(log, n - 1);
      FirstIsNew(log, n - 1);
      assert log[..n][..n - 1] == log[..n - 1];
    }
  }

  // The observation at `i` is of another model than the requested one, of a call that is not
  // the user's own, or the report of a call that takes a counter beyond its budget.
  predicate BreachAt(log: seq<Observation>, i: nat, limits: Limits)
    requires i < |log|
  {
    || (log[i].model != "" && log[i].model != limits.model)
    || (log[i].CallUsed? && log[i].byok == Some(false))
    || (FirstReport(log, i) &&
         (|| (limits.maxInput > 0 && InputOf(log, i + 1) % 0x1_0000_0000_0000_0000 > limits.maxInput)
          || (limits.maxOutput > 0 && OutputOf(log, i + 1) % 0x1_0000_0000_0000_0000 > limits.maxOutput)))
  }

  // The report of a call tells whose it is and, the first time, how much it used.
  predicate ToldAt(log: seq<Observation>, i: nat)
    requires i < |log|
  {
    log[i].CallUsed? ==>
      && log[i].byok.Some?
      && (FirstReport(log, i) ==>
            log[i].input.Some? && log[i].input.value >= 0 && log[i].output.Some? && log[i].output.value >= 0)
  }

  lemma BreachMeans(log: seq<Observation>, n: nat, limits: Limits)
    requires n < |log|
    ensures BreachAt(log, n, limits) <==> FailsOn(log[..n], log[n], limits)
    ensures ToldAt(log, n) <==> KnownCall(log[..n], log[n])
  {
    FirstIsNew(log, n);
    CountersAreTrue(log, n + 1);
    assert log[..n + 1] == log[..n] + [log[n]];
    hide TrueInput, TrueOutput, InputOf, OutputOf, CallIds, FirstReport;
  }

  /** A session has failed exactly when some observation was a breach, and its usage is
      fully known exactly when every report tells what it should. */
  lemma {:induction false} FailedExactly(log: seq<Observation>, n: nat, limits: Limits)
    requires n <= |log|
    ensures HasFailed(log[..n], limits) <==> exists i :: 0 <= i < n && BreachAt(log, i, limits)
    ensures FullyKnown(log[..n]) <==> forall i :: 0 <= i < n ==> ToldAt(log, i)
  {
    hide BreachAt, ToldAt, FailsOn, KnownCall;
    if n > 0 {
      FailedExactly(log, n - 1, limits);
      BreachMeans(log, n - 1, limits);
      assert log[..n][..n - 1] == log[..n - 1];
    }
  }

  // ----- Budgets -----

  /** A budget of at most 2^63 catches every session that truly exceeds it: a single
      call adds less than 2^63, so the first excess cannot wrap around. */
  lemma {:induction false} BudgetTrips(log: seq<Observation>, limits: Limits)
    ensures 0 < limits.maxInput <= INT64_LIMIT && TrueInput(log) > limits.maxInput ==> HasFailed(log, limits)
    ensures 0 < limits.maxOutput <= INT64_LIMIT && TrueOutput(log) > limits.maxOutput ==> HasFailed(log, limits)
  {
    if |log| > 0 {
      var front, o := log[..|log| - 1], log[|log| - 1];
      BudgetTrips(front, limits);
      assert log == front + [o];
      if TrueInput(log) < UINT64_LIMIT { WrapSmall(TrueInput(log)); }
      if TrueOutput(log) < UINT64_LIMIT { WrapSmall(TrueOutput(log)); }
    }
  }

  // A call of the right model that reports no output.
  function Call(id: string, model: string, input: Int64): Observation {
    CallUsed(id, model, Some(true), Some(input), Some(0))
  }

  lemma CallAppended(log: seq<Observation>, id: string, input: Int64, limits: Limits)
    requires id !in CallIds(log) && input >= 0 && TrueOutput(log) == 0
    ensures TrueOutput(log + [Call(id, limits.model, input)]) == 0
    ensures TrueInput(log + [Call(id, limits.model, input)]) == TrueInput(log) + input
    ensures CallIds(log + [Call(id, limits.model, input)]) == CallIds(log) + {id}
    ensures HasFailed(log + [Call(id, limits.model, input)], limits) <==>
      HasFailed(log, limits) || Exceeds(Wrap(TrueInput(log) + input), limits.maxInput)
  {
    Appended(log, Call(id, limits.model, input), "", limits);
    WrapSmall(0);
  }

  /** A larger budget can be evaded: fill it up exactly, then wrap around. */
  lemma LargeBudgetEvaded(limits: Limits)
    requires limits.maxInput > INT64_LIMIT
    ensures exists log :: TrueInput(log) > limits.maxInput && !HasFailed(log, limits)
  {
    hide TrueInput, TrueOutput, HasFailed, CallIds, Wrap, Exceeds;
    var big: Int64 := INT64_LIMIT - 1;
    var rest := limits.maxInput - big;
    var half: Int64, other: Int64 := rest / 2, rest - rest / 2;
    Nothing(limits);
    CallAppended([], "a", big, limits);
    var a := [] + [Call("a", limits.model, big)];
    CallAppended(a, "b", half, limits);
    var b := a + [Call("b", limits.model, half)];
    CallAppended(b, "c", other, limits);
    var c := b + [Call("c", limits.model, other)];
    CallAppended(c, "d", big, limits);
    var d := c + [Call("d", limits.model, big)];
    Fits(big, limits.maxInput);
    Fits(big + half, limits.maxInput);
    Fits(limits.maxInput, limits.maxInput);
    WrapsUnder(limits.maxInput, big);
    assert TrueInput(d) > limits.maxInput && !HasFailed(d, limits);
  }

  lemma Nothing(limits: Limits)
    ensures CallIds([]) == {} && TrueInput([]) == 0 && TrueOutput([]) == 0 && !HasFailed([], limits)
  {
  }

  lemma Fits(total: nat, maximum: Uint64)
    requires total <= maximum
    ensures !Exceeds(Wrap(total), maximum)
  {
    WrapSmall(total);
  }

  lemma WrapsUnder(maximum: Uint64, more: nat)
    requires UINT64_LIMIT <= maximum + more && more < UINT64_LIMIT
    ensures !Exceeds(Wrap(maximum + more), maximum)
  {
  }

  // Input and output exchanged.
  function MirroredCall(o: Observation): Observation {
    if o.CallUsed? then o.(input := o.output, output := o.input) else o
  }

  function Mirrored(log: seq<Observation>): seq<Observation> {
    if |log| == 0 then [] else Mirrored(log[..|log| - 1]) + [MirroredCall(log[|log| - 1])]
  }

  function MirroredLimits(limits: Limits): Limits {
    limits.(maxInput := limits.maxOutput, maxOutput := limits.maxInput)
  }

  lemma {:induction false} MirrorExchanges(log: seq<Observation>, limits: Limits)
    ensures CallIds(Mirrored(log)) == CallIds(log)
    ensures TrueInput(Mirrored(log)) == TrueOutput(log) && TrueOutput(Mirrored(log)) == TrueInput(log)
    ensures HasFailed(Mirrored(log), MirroredLimits(limits)) <==> HasFailed(log, limits)
  {
    hide TrueInput, TrueOutput, CallIds, HasFailed, Wrap;
    if |log| == 0 {
      Nothing(limits);
      Nothing(MirroredLimits(limits));
      assert Mirrored(log) == [] == log;
    } else {
      var front, o := log[..|log| - 1], log[|log| - 1];
      assert log == front + [o];
      MirrorExchanges(front, limits);
      Appended(front, o, "", limits);
      Appended(Mirrored(front), MirroredCall(o), "", MirroredLimits(limits));
    }
  }

  // Some session truly exceeds the input budget and is not stopped.
  ghost predicate Evades(limits: Limits) {
    exists log :: TrueInput(log) > limits.maxInput && !HasFailed(log, limits)
  }

  lemma EvadedExactly(limits: Limits)
    requires limits.maxInput > 0
    ensures Evades(limits) <==> limits.maxInput > INT64_LIMIT
  {
    if limits.maxInput > INT64_LIMIT { LargeBudgetEvaded(limits); }
    if Evades(limits) {
      var log :| TrueInput(log) > limits.maxInput && !HasFailed(log, limits);
      BudgetTrips(log, limits);
    }
  }

  ghost predicate EvadesOutput(limits: Limits) {
    exists log :: TrueOutput(log) > limits.maxOutput && !HasFailed(log, limits)
  }

  lemma OutputEvades(limits: Limits)
    ensures EvadesOutput(limits) <==> Evades(MirroredLimits(limits))
  {
    hide TrueInput, TrueOutput, HasFailed;
    if EvadesOutput(limits) {
      var log :| TrueOutput(log) > limits.maxOutput && !HasFailed(log, limits);
      MirrorExchanges(log, limits);
      assert TrueInput(Mirrored(log)) > limits.maxOutput;
    }
    if Evades(MirroredLimits(limits)) {
      var log :| TrueInput(log) > limits.maxOutput && !HasFailed(log, MirroredLimits(limits));
      MirrorExchanges(log, MirroredLimits(limits));
      assert MirroredLimits(MirroredLimits(limits)) == limits;
      assert TrueOutput(Mirrored(log)) > limits.maxOutput;
    }
  }

  lemma InputEnforced(limits: Limits)
    requires limits.maxInput > 0
    ensures (forall log :: TrueInput(log) > limits.maxInput ==> HasFailed(log, limits)) <==>
      limits.maxInput <= INT64_LIMIT
  {
    EvadedExactly(limits);
    if !Evades(limits) {
      forall log | TrueInput(log) > limits.maxInput ensures HasFailed(log, limits) {}
    } else {
      var log :| TrueInput(log) > limits.maxInput && !HasFailed(log, limits);
      assert !(TrueInput(log) > limits.maxInput ==> HasFailed(log, limits));
    }
  }

  lemma OutputEnforced(limits: Limits)
    requires limits.maxOutput > 0
    ensures (forall log :: TrueOutput(log) > limits.maxOutput ==> HasFailed(log, limits)) <==>
      limits.maxOutput <= INT64_LIMIT
  {
    OutputEvades(limits);
    EvadedExactly(MirroredLimits(limits));
    if !EvadesOutput(limits) {
      forall log | TrueOutput(log) > limits.maxOutput ensures HasFailed(log, limits) {}
    } else {
      var log :| TrueOutput(log) > limits.maxOutput && !HasFailed(log, limits);
      assert !(TrueOutput(log) > limits.maxOutput ==> HasFailed(log, limits));
    }
  }

  /** An input or output budget is enforced on every session exactly when it is at
      most 2^63. */
  lemma BudgetEnforcedExactly(limits: Limits)
    ensures limits.maxInput > 0 ==>
      ((forall log :: TrueInput(log) > limits.maxInput ==> HasFailed(log, limits)) <==> limits.maxInput <= INT64_LIMIT)
    ensures limits.maxOutput > 0 ==>
      ((forall log :: TrueOutput(log) > limits.maxOutput ==> HasFailed(log, limits)) <==>
        limits.maxOutput <= INT64_LIMIT)
  {
    if limits.maxInput > 0 { InputEnforced(limits); }
    if limits.maxOutput > 0 { OutputEnforced(limits); }
  }

  /** A failure is never taken back. */
  lemma {:induction false} FailureSticks(log: seq<Observation>, more: seq<Observation>, limits: Limits)
    requires HasFailed(log, limits)
    ensures HasFailed(log + more, limits)
  {
    if |more| == 0 {
      assert log + more == log;
    } else {
      FailureSticks(log, more[..|more| - 1], limits);
      assert (log + more)[..|log + more| - 1] == log + more[..|more| - 1];
    }
  }

  // ----- What the collector reports is what it counted -----

  predicate OwnDelta(e: UsageEvent, log: seq<Observation>, session: string) {
    && e.session == session && !e.cumulative && e.id in CallIds(log)
    && e.total == e.input + e.output < UINT64_LIMIT
  }

  predicate DistinctEvents(us: seq<UsageEvent>) {
    forall i, j :: 0 <= i < j < |us| ==> us[i].id != us[j].id
  }

  lemma {:induction false} UsageShape(log: seq<Observation>, session: string)
    ensures forall e :: e in UsageOf(log, session) ==> OwnDelta(e, log, session)
    ensures DistinctEvents(UsageOf(log, session))
    ensures CallIds(log) != {} ==> |UsageOf(log, session)| > 0
  {
    if |log| > 0 {
      var front, o := log[..|log| - 1], log[|log| - 1];
      assert log == front + [o];
      UsageShape(front, session);
      Appended(front, o, session, Limits("", 0, 0));
      var us := UsageOf(front, session);
      forall i | 0 <= i < |us| ensures OwnDelta(us[i], log, session) && (NewCall(front, o) ==> us[i].id != o.id) {
        assert us[i] in us;
      }
    }
  }

  lemma {:induction false} UsageSum(log: seq<Observation>, session: string)
    ensures SumOver(SetOf(UsageOf(log, session)), Counted) == TrueInput(log) + TrueOutput(log)
  {
    if |log| == 0 {
      assert SetOf(UsageOf(log, session)) == {};
    } else {
      var front, o := log[..|log| - 1], log[|log| - 1];
      assert log == front + [o];
      UsageSum(front, session);
      UsageShape(front, session);
      hide TrueInput, TrueOutput, UsageOf, CallIds;
      Appended(front, o, session, Limits("", 0, 0));
      if NewCall(front, o) {
        var i, j := Amount(o.input), Amount(o.output);
        var e := UsageEvent(o.id, session, i, j, i + j, false);
        SetOfAppend(UsageOf(front, session), e);
        SumInsert(SetOf(UsageOf(front, session)), Counted, e);
      } else {
        assert UsageOf(log, session) == UsageOf(front, session);
      }
    }
  }

  /** The usage one collector reports is worth exactly the true sums of its session:
      the reported total is that sum when it fits 64 bits and an error otherwise. */
  lemma CollectedTotalIsTrue(log: seq<Observation>, session: string)
    requires session != "" && CallIds(log) != {} && "" !in CallIds(log)
    ensures Countable(SetOf(UsageOf(log, session))) <==> TrueInput(log) + TrueOutput(log) < UINT64_LIMIT
    ensures Reported(SetOf(UsageOf(log, session))) == TrueInput(log) + TrueOutput(log)
  {
    UsageShape(log, session);
    UsageSum(log, session);
    var us := UsageOf(log, session);
    var s := SetOf(us);
    assert us[0] in s;
    assert SessionsOf(s) == {session};
    assert DeltasOf(s, session) == s && CumulativesOf(s, session) == {};
    var tokens := x => SessionTokens(s, x);
    SumAgrees({session}, tokens, x => SessionTokens(s, x));
    SumInsert({}, tokens, session);
    assert {} + {session} == {session};
    SumAgrees(SessionsOf(s), tokens, x => SessionTokens(s, x));
    forall a, b | a in s && b in s && a.id == b.id ensures a == b {
      var i :| 0 <= i < |us| && us[i] == a;
      var j :| 0 <= j < |us| && us[j] == b;
    }
  }
}
