/**
 * The per-run behaviour of the modular input, as values: which events are written, which
 * requests are sent, and what the checkpoint collection holds afterwards. The imperative
 * methods in module Stream are proved to have exactly these effects.
 */
module Ingest {
  import opened Wrappers
  import opened Text
  import opened Checkpoints
  import opened Pagination

  /** The indexed event: time, payload, sourcetype and source. */
  datatype Event = Event(time: int, data: string, sourcetype: string, source: string)

  /** One configured input stanza: its full name ("scheme://name"), its `account` and its `activity_types` setting. */
  datatype Input = Input(name: string, account: Option<string>, activityTypes: Option<string>)

  /**
   * The collaborators a run depends on: the configured accounts (account name to datacenter),
   * the API server, the successive clock readings, and the bound within which page chains end.
   */
  datatype Env = Env(accounts: map<string, string>, server: Url -> Reply, clock: nat -> int, bound: nat)

  /** What a run changes: the checkpoint collection, the events written, the requests sent, the clock readings taken. */
  datatype World = World(records: Records, events: seq<Event>, sent: seq<Url>, taken: nat)

  /** The events written and the requests sent by a part of a run. */
  datatype Effects = Effects(events: seq<Event>, sent: seq<Url>)

  function Combine(first: Effects, second: Effects): Effects {
    Effects(first.events + second.events, first.sent + second.sent)
  }

  /** `input_name.split("/")[-1]`: the input's name without its scheme. */
  function NormalizedName(name: string): string {
    LastPiece(name, '/')
  }

  /**
   * The normalized name is the part of the name after its last '/': a suffix of the name
   * without '/' that, unless it is the whole name, starts right after a '/'; and the whole
   * name when it has no '/'.
   */
  lemma NormalizedNameShape(name: string)
    ensures '/' !in NormalizedName(name)
    ensures |NormalizedName(name)| <= |name|
    ensures forall k :: 0 <= k < |NormalizedName(name)| ==>
      NormalizedName(name)[k] == name[|name| - |NormalizedName(name)| + k]
    ensures |NormalizedName(name)| < |name| ==> name[|name| - |NormalizedName(name)| - 1] == '/'
    ensures '/' !in name ==> NormalizedName(name) == name
  {
    LastPieceIsSuffix(name, '/');
    SplitPiecesLackSeparator(name, '/');
    var parts := Split(name, '/');
    assert NormalizedName(name) == parts[|parts| - 1];
    if '/' !in name {
      SplitWithoutSeparator(name, '/');
    }
  }

  /** `[t.strip() for t in input_item.get("activity_types", "").split(",")]`. */
  function ParseActivityTypes(setting: Option<string>): (types: seq<string>)
    ensures |types| >= 1
  {
    var parts := Split(setting.GetOr(""), ',');
    seq(|parts|, i requires 0 <= i < |parts| => Strip(parts[i]))
  }

  /** Stripping adds no character: one absent from a string is absent from it stripped. */
  lemma StripKeeps(s: string, c: char)
    requires c !in s
    ensures c !in Strip(s)
  {
    StripIsInfix(s);
    var i := |s| - |TrimStart(s)|;
    var r := Strip(s);
    forall k | 0 <= k < |r|
      ensures r[k] != c
    {
      assert r[k] == s[i + k];
    }
  }

  /**
   * `kept` is what the activity-type list holds for `segment`: the segment with the whitespace
   * around it removed, so no whitespace at either end, and no comma.
   */
  predicate ActivityTypeOf(segment: string, kept: string) {
    Padded(segment, kept) && ',' !in kept
    && (kept == [] || (!IsSpace(kept[0]) && !IsSpace(kept[|kept| - 1])))
  }

  /** A comma-free segment strips to its activity type. */
  lemma SegmentActivityType(segment: string)
    requires ',' !in segment
    ensures ActivityTypeOf(segment, Strip(segment))
  {
    StripKeeps(segment, ',');
    StripPadded(segment);
  }

  /**
   * One activity type per comma-separated segment, in order: as many as there are commas plus
   * one, the i-th being the i-th segment without the whitespace around it.
   */
  lemma ActivityTypesShape(setting: string)
    ensures |ParseActivityTypes(Some(setting))| == |Split(setting, ',')| == Occurrences(setting, ',') + 1
    ensures forall i :: 0 <= i < |ParseActivityTypes(Some(setting))| ==>
      ActivityTypeOf(Split(setting, ',')[i], ParseActivityTypes(Some(setting))[i])
  {
    SplitCount(setting, ',');
    SplitPiecesLackSeparator(setting, ',');
    var types := ParseActivityTypes(Some(setting));
    var parts := Split(setting, ',');
    forall i | 0 <= i < |types|
      ensures ActivityTypeOf(parts[i], types[i])
    {
      SegmentActivityType(parts[i]);
    }
  }

  /** A missing, empty or blank setting yields the single activity type "". */
  lemma ActivityTypesDefault(setting: Option<string>)
    requires setting.Some? ==> AllSpace(setting.value)
    ensures ParseActivityTypes(setting) == [""]
  {
    var text := setting.GetOr("");
    OccurrencesPositive(WHITESPACE, ',');
    assert ',' !in text;
    SplitWithoutSeparator(text, ',');
    StripAllSpace(text);
  }

  function Sourcetype(activityType: string): string {
    "qualtrics:audit:" + activityType
  }

  function Source(datacenter: string): string {
    datacenter + ".qualtrics.com/API/v3/logs"
  }

  /** A record the event writer can take: both `timestamp` and `descriptor` are present and readable. */
  predicate WellFormed(r: Record) {
    r.timestamp.Some? && r.descriptor.Some?
  }

  function ToEvent(r: Record, sourcetype: string, source: string): Event
    requires WellFormed(r)
  {
    Event(r.timestamp.value, r.descriptor.value, sourcetype, source)
  }

  /**
   * The events written for fetched records: one per record, in order, up to the first record
   * that cannot be turned into an event, where the exception ends the activity type.
   */
  function Emitted(records: seq<Record>, sourcetype: string, source: string): (events: seq<Event>)
    ensures |events| <= |records|
    decreases |records|
  {
    if records == [] || !WellFormed(records[0]) then []
    else [ToEvent(records[0], sourcetype, source)] + Emitted(records[1..], sourcetype, source)
  }

  /**
   * The i-th event is the i-th record, with the activity type's sourcetype and source; when
   * fewer events than records are written, the record after the last event is malformed.
   */
  lemma {:induction false} EmittedPrefix(records: seq<Record>, sourcetype: string, source: string)
    ensures var events := Emitted(records, sourcetype, source);
      |events| <= |records|
      && (forall i :: 0 <= i < |events| ==> WellFormed(records[i]) && events[i] == ToEvent(records[i], sourcetype, source))
      && (|events| < |records| ==> !WellFormed(records[|events|]))
    decreases |records|
  {
    if records != [] && WellFormed(records[0]) {
      EmittedPrefix(records[1..], sourcetype, source);
    }
  }

  /** What processing one activity type over [start, end] sends and writes. */
  function ActivityRun(server: Url -> Reply, bound: nat, datacenter: string, activityType: string,
                       start: int, end: int): Effects
  {
    var chain := Chain(server, FirstPageUrl(datacenter, activityType, start, end), bound);
    var events := match Collect(chain)
      case FetchRaised => []
      case Fetched(records) => Emitted(records, Sourcetype(activityType), Source(datacenter));
    Effects(events, Urls(chain))
  }

  lemma CombineAssociative(a: Effects, b: Effects, c: Effects)
    ensures Combine(a, Combine(b, c)) == Combine(Combine(a, b), c)
  {
    assert a.events + (b.events + c.events) == (a.events + b.events) + c.events;
    assert a.sent + (b.sent + c.sent) == (a.sent + b.sent) + c.sent;
  }

  /** The effects of several parts, one after the other. */
  function CombineAll(parts: seq<Effects>): Effects
    decreases |parts|
  {
    if parts == [] then Effects([], []) else Combine(parts[0], CombineAll(parts[1..]))
  }

  /** What processing each activity type sends and writes, one entry per activity type. */
  function PerActivity(server: Url -> Reply, bound: nat, datacenter: string, types: seq<string>,
                       start: int, end: int): (parts: seq<Effects>)
  {
    seq(|types|, i requires 0 <= i < |types| => ActivityRun(server, bound, datacenter, types[i], start, end))
  }

  /** What processing the activity types in order sends and writes. */
  function ActivitiesRun(server: Url -> Reply, bound: nat, datacenter: string, types: seq<string>,
                         start: int, end: int): Effects
  {
    CombineAll(PerActivity(server, bound, datacenter, types, start, end))
  }

  /** The account lookup succeeds: the input names an account and that account is configured. */
  predicate Resolved(env: Env, input: Input) {
    input.account.Some? && input.account.value in env.accounts
  }

  function KeyOf(input: Input): string
    requires input.account.Some?
  {
    CheckpointKey(NormalizedName(input.name), input.account.value)
  }

  /** The index of the clock reading that becomes `end_date`: one later when the start fell back to the clock. */
  function EndReading(w: World, key: string): nat {
    w.taken + StartReadings(w.records, key)
  }

  /**
   * The checkpoint collection once an input has committed: its key alone is replaced, with the
   * `end_date` reading as watermark and the reading after it as `updated_at`.
   */
  function Committed(env: Env, w: World, key: string): Records {
    var t := EndReading(w, key);
    w.records[key := SaveRecord(env.clock(t), env.clock(t + 1))]
  }

  /** One pass of the per-input loop body. An account lookup that raises leaves everything as it was. */
  function InputStep(env: Env, w: World, input: Input): World {
    if !Resolved(env, input) then w
    else
      var key := KeyOf(input);
      var start := LastEndDate(w.records, key, env.clock(w.taken));
      var t := EndReading(w, key);
      var effects := ActivitiesRun(env.server, env.bound, env.accounts[input.account.value],
                                   ParseActivityTypes(input.activityTypes), start, env.clock(t));
      World(Committed(env, w, key), w.events + effects.events, w.sent + effects.sent, t + 2)
  }

  /** The inputs processed one after the other. */
  function Run(env: Env, w: World, inputs: seq<Input>): World
    decreases |inputs|
  {
    if inputs == [] then w else Run(env, InputStep(env, w, inputs[0]), inputs[1..])
  }

  lemma {:induction false} CombineAllAppend(parts: seq<Effects>, last: Effects)
    ensures CombineAll(parts + [last]) == Combine(CombineAll(parts), last)
    decreases |parts|
  {
    if parts != [] {
      assert (parts + [last])[1..] == parts[1..] + [last];
      CombineAllAppend(parts[1..], last);
      CombineAssociative(parts[0], CombineAll(parts[1..]), last);
    } else {
      assert [] + [last] == [last];
      assert Combine(last, Effects([], [])) == last;
      assert Combine(Effects([], []), last) == last;
    }
  }

  lemma {:induction false} CombineAllSplit(parts: seq<Effects>, i: nat)
    requires i < |parts|
    ensures CombineAll(parts) == Combine(Combine(CombineAll(parts[..i]), parts[i]), CombineAll(parts[i + 1..]))
    decreases i
  {
    if i == 0 {
      assert parts[..0] == [];
      assert parts[1..] == parts[i + 1..];
      assert Combine(Effects([], []), parts[0]) == parts[0];
    } else {
      CombineAllSplit(parts[1..], i - 1);
      assert parts[1..][..i - 1] == parts[..i][1..];
      assert parts[1..][i - 1] == parts[i];
      assert parts[1..][i..] == parts[i + 1..];
      assert parts[..i][0] == parts[0];
      var middle := CombineAll(parts[..i][1..]);
      var later := CombineAll(parts[i + 1..]);
      CombineAssociative(parts[0], Combine(middle, parts[i]), later);
      CombineAssociative(parts[0], middle, parts[i]);
    }
  }

  /** Every request of several parts is a request of one of them. */
  lemma {:induction false} CombineAllSent(parts: seq<Effects>, j: nat)
    requires j < |CombineAll(parts).sent|
    ensures exists i, k :: 0 <= i < |parts| && 0 <= k < |parts[i].sent| && CombineAll(parts).sent[j] == parts[i].sent[k]
    decreases |parts|
  {
    if j >= |parts[0].sent| {
      CombineAllSent(parts[1..], j - |parts[0].sent|);
      var i, k :| 0 <= i < |parts[1..]| && 0 <= k < |parts[1..][i].sent|
                  && CombineAll(parts[1..]).sent[j - |parts[0].sent|] == parts[1..][i].sent[k];
      assert parts[1..][i] == parts[i + 1];
    } else {
      assert CombineAll(parts).sent[j] == parts[0].sent[j];
    }
  }

  /** Processing the next activity type appends its effects. */
  lemma ActivitiesRunAppend(server: Url -> Reply, bound: nat, datacenter: string,
                            types: seq<string>, last: string, start: int, end: int)
    ensures ActivitiesRun(server, bound, datacenter, types + [last], start, end)
            == Combine(ActivitiesRun(server, bound, datacenter, types, start, end),
                       ActivityRun(server, bound, datacenter, last, start, end))
  {
    var parts := PerActivity(server, bound, datacenter, types, start, end);
    assert PerActivity(server, bound, datacenter, types + [last], start, end)
           == parts + [ActivityRun(server, bound, datacenter, last, start, end)];
    CombineAllAppend(parts, ActivityRun(server, bound, datacenter, last, start, end));
  }

  /**
   * Activity types are independent: what the i-th activity type sends and writes sits between
   * what the earlier ones and the later ones do, whatever its own fetch or emission did.
   */
  lemma ActivityIsolation(server: Url -> Reply, bound: nat, datacenter: string,
                          types: seq<string>, i: nat, start: int, end: int)
    requires i < |types|
    ensures ActivitiesRun(server, bound, datacenter, types, start, end)
            == Combine(Combine(ActivitiesRun(server, bound, datacenter, types[..i], start, end),
                               ActivityRun(server, bound, datacenter, types[i], start, end)),
                       ActivitiesRun(server, bound, datacenter, types[i + 1..], start, end))
  {
    var parts := PerActivity(server, bound, datacenter, types, start, end);
    CombineAllSplit(parts, i);
    assert parts[..i] == PerActivity(server, bound, datacenter, types[..i], start, end);
    assert parts[i + 1..] == PerActivity(server, bound, datacenter, types[i + 1..], start, end);
  }

  /**
   * An activity type whose fetch raises, or whose first page is refused, writes nothing; when
   * refused it costs exactly one request. The others still run.
   */
  lemma FailedActivityWritesNothing(server: Url -> Reply, bound: nat, datacenter: string,
                                    activityType: string, start: int, end: int)
    requires bound > 0
    requires var first := server(FirstPageUrl(datacenter, activityType, start, end));
      first.Raised? || first.status != 200
    ensures ActivityRun(server, bound, datacenter, activityType, start, end)
            == Effects([], [FirstPageUrl(datacenter, activityType, start, end)])
  {
    ChainUnfold(server, FirstPageUrl(datacenter, activityType, start, end), bound);
  }

  /** Any exception escaping the fetch loses that activity type's records, however many pages came before. */
  lemma RaisedFetchWritesNothing(server: Url -> Reply, bound: nat, datacenter: string,
                                 activityType: string, start: int, end: int)
    requires Collect(Chain(server, FirstPageUrl(datacenter, activityType, start, end), bound)) == FetchRaised
    ensures ActivityRun(server, bound, datacenter, activityType, start, end).events == []
  {
  }

  /**
   * Every activity type of an input is fetched over the same window: each first-page request
   * an input sends is for one of its activity types, with its datacenter, the page size and
   * exactly the [start, end] of that input; every other request is a `nextPage` link.
   */
  lemma SameWindowForAllActivities(server: Url -> Reply, bound: nat, datacenter: string,
                                   types: seq<string>, start: int, end: int, j: nat)
    requires j < |ActivitiesRun(server, bound, datacenter, types, start, end).sent|
    ensures var url := ActivitiesRun(server, bound, datacenter, types, start, end).sent[j];
      url.FirstPage? ==>
        (url.query.datacenter == datacenter && url.query.activityType in types
         && url.query.pageSize == PAGE_SIZE && url.query.startDate == start && url.query.endDate == end)
  {
    var parts := PerActivity(server, bound, datacenter, types, start, end);
    CombineAllSent(parts, j);
    var i, k :| 0 <= i < |parts| && 0 <= k < |parts[i].sent| && CombineAll(parts).sent[j] == parts[i].sent[k];
    var first := FirstPageUrl(datacenter, types[i], start, end);
    var chain := Chain(server, first, bound);
    assert parts[i].sent == Urls(chain);
    UrlsAt(chain, k);
    if k > 0 {
      ChainLaterRequestsAreLinks(server, first, bound, k);
    }
  }

  /** An input whose account lookup raises changes nothing: no request, no event, no checkpoint, no clock reading. */
  lemma InputSkipped(env: Env, w: World, input: Input)
    requires !Resolved(env, input)
    ensures InputStep(env, w, input) == w
  {
  }

  /**
   * Otherwise the input commits: the checkpoint collection becomes `Committed`, and two clock
   * readings past `end_date` have been taken.
   */
  lemma InputCommit(env: Env, w: World, input: Input)
    requires Resolved(env, input)
    ensures InputStep(env, w, input).records == Committed(env, w, KeyOf(input))
    ensures InputStep(env, w, input).taken == EndReading(w, KeyOf(input)) + 2
  {
  }

  /**
   * A commit replaces the checkpoint of that input alone, and the next run of the input starts
   * exactly at this run's `end_date`, whatever the clock then says.
   */
  lemma NextWindowStartsAtEnd(env: Env, w: World, key: string, other: string, now: int)
    ensures StoredEndDate(Committed(env, w, key), key) == Some(env.clock(EndReading(w, key)))
    ensures LastEndDate(Committed(env, w, key), key, now) == env.clock(EndReading(w, key))
    ensures other != key ==> (other in Committed(env, w, key) <==> other in w.records)
    ensures other != key && other in w.records ==> Committed(env, w, key)[other] == w.records[other]
  {
    var t := EndReading(w, key);
    ReadAfterSave(w.records, key, env.clock(t), env.clock(t + 1), now);
  }

  /**
   * The checkpoint advances however the activity types fared: the stored checkpoints and the
   * clock readings taken do not depend on what the server answered.
   */
  lemma CheckpointIgnoresFetches(env1: Env, env2: Env, w: World, input: Input)
    requires env1.accounts == env2.accounts && env1.clock == env2.clock
    ensures InputStep(env1, w, input).records == InputStep(env2, w, input).records
    ensures InputStep(env1, w, input).taken == InputStep(env2, w, input).taken
  {
    if Resolved(env1, input) {
      InputCommit(env1, w, input);
      InputCommit(env2, w, input);
      assert Committed(env1, w, KeyOf(input)) == Committed(env2, w, KeyOf(input));
    }
  }

  lemma {:induction false} RunConcat(env: Env, w: World, first: seq<Input>, second: seq<Input>)
    ensures Run(env, w, first + second) == Run(env, Run(env, w, first), second)
    decreases |first|
  {
    if first != [] {
      assert (first + second)[1..] == first[1..] + second;
      RunConcat(env, InputStep(env, w, first[0]), first[1..], second);
    } else {
      assert first + second == second;
    }
  }

  /** An input whose account lookup raises is skipped: the run is as if it were not configured. */
  lemma FailedInputSkipped(env: Env, w: World, before: seq<Input>, input: Input, after: seq<Input>)
    requires !Resolved(env, input)
    ensures Run(env, w, before + [input] + after) == Run(env, w, before + after)
  {
    RunConcat(env, w, before, [input] + after);
    assert before + [input] + after == before + ([input] + after);
    RunConcat(env, w, before, after);
    assert ([input] + after)[1..] == after;
  }

  lemma PrefixTransitive<T>(a: seq<T>, b: seq<T>, c: seq<T>)
    requires a <= b && b <= c
    ensures a <= c
  {
    assert c[..|a|] == c[..|b|][..|a|];
  }

  /** One input only appends events and requests, and leaves the checkpoints of other inputs alone. */
  lemma InputOnlyAppends(env: Env, w: World, input: Input, key: string)
    requires Resolved(env, input) ==> KeyOf(input) != key
    ensures var after := InputStep(env, w, input);
      w.events <= after.events && w.sent <= after.sent
      && w.taken <= after.taken
      && (key in after.records <==> key in w.records)
      && (key in w.records ==> after.records[key] == w.records[key])
  {
    if Resolved(env, input) {
      InputCommit(env, w, input);
    }
  }

  /**
   * A run only appends: earlier events and requests stay as they were, and the checkpoint of
   * any key that no input of the run owns is untouched.
   */
  lemma {:induction false} RunOnlyAppends(env: Env, w: World, inputs: seq<Input>, key: string)
    requires forall i :: 0 <= i < |inputs| && Resolved(env, inputs[i]) ==> KeyOf(inputs[i]) != key
    ensures var after := Run(env, w, inputs);
      w.events <= after.events && w.sent <= after.sent
      && w.taken <= after.taken
      && (key in after.records <==> key in w.records)
      && (key in w.records ==> after.records[key] == w.records[key])
    decreases |inputs|
  {
    if inputs != [] {
      var next := InputStep(env, w, inputs[0]);
      InputOnlyAppends(env, w, inputs[0], key);
      assert forall i :: 0 <= i < |inputs[1..]| ==> inputs[1..][i] == inputs[i + 1];
      RunOnlyAppends(env, next, inputs[1..], key);
      PrefixTransitive(w.events, next.events, Run(env, next, inputs[1..]).events);
      PrefixTransitive(w.sent, next.sent, Run(env, next, inputs[1..]).sent);
    }
  }
}
