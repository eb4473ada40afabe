/**
 * `stream_events` as the connector runs it: one pass over the configured inputs against the
 * checkpoint store, the event writer, the HTTP transport and the clock. Each method is proved
 * to have exactly the effects the value-level run of module Ingest describes.
 */
module Stream {
  import opened Wrappers
  import opened Timestamps
  import opened Checkpoints
  import opened Pagination
  import opened Ingest

  /** The event writer handed to the modular input: events are only ever appended. */
  class EventWriter {
    var events: seq<Event>

    constructor ()
      ensures events == []
    {
      events := [];
    }

    /** `event_writer.write_event(event)`. */
    method WriteEvent(event: Event)
      modifies this
      ensures events == old(events) + [event]
    {
      events := events + [event];
    }
  }

  /** The part of the collaborators' state a run changes. */
  function Snapshot(store: CheckpointStore, writer: EventWriter, transport: Transport, clock: Clock): World
    reads store, writer, transport, clock
  {
    World(store.records, writer.events, transport.sent, clock.taken)
  }

  /**
   * The loop writing one event per fetched record. A record without a readable `timestamp` or
   * `descriptor` raises, which ends the loop; the events written before it stay written.
   */
  method EmitRecords(writer: EventWriter, records: seq<Record>, sourcetype: string, source: string)
    returns (written: nat)
    modifies writer
    ensures writer.events == old(writer.events) + Emitted(records, sourcetype, source)
    ensures written == |Emitted(records, sourcetype, source)|
  {
    written := 0;
    while written < |records| && WellFormed(records[written])
      invariant written <= |records|
      invariant |writer.events| == |old(writer.events)| + written
      invariant old(writer.events) + Emitted(records, sourcetype, source)
                == writer.events + Emitted(records[written..], sourcetype, source)
      decreases |records| - written
    {
      var rest := records[written..];
      assert rest[1..] == records[written + 1..];
      assert Emitted(rest, sourcetype, source)
             == [ToEvent(records[written], sourcetype, source)] + Emitted(records[written + 1..], sourcetype, source);
      writer.WriteEvent(ToEvent(records[written], sourcetype, source));
      written := written + 1;
    }
    assert Emitted(records[written..], sourcetype, source) == [];
  }

  /**
   * The body of the per-activity `try`: fetch the window for one activity type and write its
   * records. Whatever raises inside is caught here, so the method always returns; the result is
   * the number of events it wrote.
   */
  method ProcessActivity(writer: EventWriter, transport: Transport, datacenter: string, activityType: string,
                         start: int, end: int, ghost bound: nat)
    returns (written: nat)
    requires EndsWithin(transport.server, FirstPageUrl(datacenter, activityType, start, end), bound)
    modifies writer, transport
    ensures var effects := ActivityRun(transport.server, bound, datacenter, activityType, start, end);
      writer.events == old(writer.events) + effects.events
      && transport.sent == old(transport.sent) + effects.sent
      && written == |effects.events|
  {
    var outcome := FetchActivity(transport, datacenter, activityType, start, end, bound);
    written := 0;
    if outcome.Fetched? {
      written := EmitRecords(writer, outcome.records, Sourcetype(activityType), Source(datacenter));
    }
  }

  /** The loop over the activity types of one input, all over the same window. */
  method ProcessActivities(writer: EventWriter, transport: Transport, datacenter: string, types: seq<string>,
                           start: int, end: int, ghost bound: nat)
    returns (total: nat)
    requires forall t :: t in types ==> EndsWithin(transport.server, FirstPageUrl(datacenter, t, start, end), bound)
    modifies writer, transport
    ensures var effects := ActivitiesRun(transport.server, bound, datacenter, types, start, end);
      writer.events == old(writer.events) + effects.events
      && transport.sent == old(transport.sent) + effects.sent
      && total == |effects.events|
  {
    total := 0;
    for i := 0 to |types|
      invariant var effects := ActivitiesRun(transport.server, bound, datacenter, types[..i], start, end);
        writer.events == old(writer.events) + effects.events
        && transport.sent == old(transport.sent) + effects.sent
        && total == |effects.events|
    {
      var written := ProcessActivity(writer, transport, datacenter, types[i], start, end, bound);
      ActivitiesRunAppend(transport.server, bound, datacenter, types[..i], types[i], start, end);
      assert types[..i + 1] == types[..i] + [types[i]];
      total := total + written;
    }
    assert types[..|types|] == types;
  }

  /**
   * The body of the per-input `try`: resolve the account, parse the activity types, compute the
   * window, process each activity type over it, then save the checkpoint. An account that cannot
   * be resolved raises before anything else happens, and the input is skipped. The result is the
   * number of events written for the input.
   */
  method ProcessInput(accounts: map<string, string>, input: Input, store: CheckpointStore, writer: EventWriter,
                      transport: Transport, clock: Clock, ghost bound: nat)
    returns (total: nat)
    requires Terminating(transport.server, bound)
    modifies store, writer, transport, clock
    ensures Snapshot(store, writer, transport, clock)
            == InputStep(Env(accounts, transport.server, clock.reading, bound), old(Snapshot(store, writer, transport, clock)), input)
    ensures total == |writer.events| - |old(writer.events)|
  {
    ghost var env := Env(accounts, transport.server, clock.reading, bound);
    ghost var before := Snapshot(store, writer, transport, clock);
    if input.account.None? || input.account.value !in accounts {
      InputSkipped(env, before, input);
      return 0;
    }
    var datacenter := accounts[input.account.value];
    var types := ParseActivityTypes(input.activityTypes);
    var key := CheckpointKey(NormalizedName(input.name), input.account.value);
    var start, end := OpenWindow(store, clock, key);
    ghost var t := clock.taken - 1;
    total := ProcessActivities(writer, transport, datacenter, types, start, end, bound);
    SaveCheckpoint(store, clock, key, end);
    InputStepEffects(env, before, input, datacenter, types, t, start, end);
  }

  /**
   * `stream_events`: when the checkpoint store cannot be opened nothing at all happens;
   * otherwise each input is processed in turn, one input's failure not stopping the next.
   */
  method StreamEvents(accounts: map<string, string>, inputs: seq<Input>, checkpointer: Option<CheckpointStore>,
                      writer: EventWriter, transport: Transport, clock: Clock, ghost bound: nat)
    requires Terminating(transport.server, bound)
    modifies (if checkpointer.Some? then {checkpointer.value} else {}), writer, transport, clock
    ensures checkpointer.None? ==>
      writer.events == old(writer.events) && transport.sent == old(transport.sent) && clock.taken == old(clock.taken)
    ensures checkpointer.Some? ==>
      var store := checkpointer.value;
      Snapshot(store, writer, transport, clock)
      == Run(Env(accounts, transport.server, clock.reading, bound), old(Snapshot(store, writer, transport, clock)), inputs)
  {
    if checkpointer.None? {
      return;
    }
    var store := checkpointer.value;
    ghost var env := Env(accounts, transport.server, clock.reading, bound);
    ghost var before := Snapshot(store, writer, transport, clock);
    for i := 0 to |inputs|
      invariant Snapshot(store, writer, transport, clock) == Run(env, before, inputs[..i])
    {
      var _ := ProcessInput(accounts, inputs[i], store, writer, transport, clock, bound);
      RunAppend(env, before, inputs[..i], inputs[i]);
      assert inputs[..i + 1] == inputs[..i] + [inputs[i]];
    }
    assert inputs[..|inputs|] == inputs;
  }

  /** A resolved input's step, given its datacenter, its activity types and its window. */
  lemma InputStepEffects(env: Env, w: World, input: Input, datacenter: string, types: seq<string>,
                         t: nat, start: int, end: int)
    requires Resolved(env, input)
    requires datacenter == env.accounts[input.account.value]
    requires types == ParseActivityTypes(input.activityTypes)
    requires t == EndReading(w, KeyOf(input))
    requires start == LastEndDate(w.records, KeyOf(input), env.clock(w.taken))
    requires end == env.clock(t)
    ensures var effects := ActivitiesRun(env.server, env.bound, datacenter, types, start, end);
      InputStep(env, w, input)
      == World(w.records[KeyOf(input) := SaveRecord(end, env.clock(t + 1))],
               w.events + effects.events, w.sent + effects.sent, t + 2)
  {
  }

  /** Processing one more input steps the world once more. */
  lemma RunAppend(env: Env, w: World, inputs: seq<Input>, input: Input)
    ensures Run(env, w, inputs + [input]) == InputStep(env, Run(env, w, inputs), input)
  {
    RunConcat(env, w, inputs, [input]);
    assert [input][1..] == [];
  }
}
