/**
 * The Wiegand reader entries of access.py: setup_readers, data_pulse,
 * kick_timer and wiegand_stream_done. A reader accumulates one character per
 * falling edge in `stream`; the first edge of a message starts a 0.2 s
 * threading.Timer, which is never cancelled or restarted, and its expiry
 * drains the stream. Time is not modelled: expiry is an explicit step.
 */
module Readers {
  import opened Wrappers
  import opened Wiegand

  /**
   * The state of one reader entry. `timer` is the slot reader["timer"]: None,
   * or the serial number of the Timer it holds; `started` counts the Timers
   * this reader has started so far.
   */
  datatype Channel = Channel(stream: string, timer: Option<nat>, started: nat)

  /** An entry with an empty stream and no timer, after `started` timers. */
  function Idle(started: nat): Channel
  {
    Channel("", None, started)
  }

  /**
   * What every reader entry keeps true from setup on: the stream holds only
   * bits, a timer is pending exactly while the stream is non-empty, and the
   * pending timer is the latest one started.
   */
  predicate Consistent(c: Channel)
  {
    && IsBits(c.stream)
    && (c.timer.Some? <==> c.stream != "")
    && (c.timer.Some? ==> c.timer.value == c.started)
  }

  /** What data_pulse appends for an edge on `channel`: "0" for d0, "1" for d1, nothing otherwise. */
  function PulseBit(d0: int, d1: int, channel: int): string
  {
    if channel == d0 then "0" else if channel == d1 then "1" else ""
  }

  /** kick_timer: start a new timer only when the slot is empty. */
  function Kick(c: Channel): (k: Channel)
    ensures k.stream == c.stream && k.timer.Some?
    ensures c.timer.Some? ==> k == c
  {
    if c.timer.None? then Channel(c.stream, Some(c.started + 1), c.started + 1) else c
  }

  /** data_pulse: append the edge's bit, then kick the timer. */
  function Pulse(c: Channel, d0: int, d1: int, channel: int): (p: Channel)
    ensures p.stream == c.stream + PulseBit(d0, d1, channel) && p.timer.Some?
    ensures c.timer.Some? ==> p.timer == c.timer && p.started == c.started
  {
    Kick(c.(stream := c.stream + PulseBit(d0, d1, channel)))
  }

  /**
   * wiegand_stream_done: with an empty stream, nothing; otherwise hand over
   * the whole stream and clear the stream and the timer slot.
   */
  function Expire(c: Channel): (r: (Channel, Option<string>))
    ensures r.1.None? <==> c.stream == ""
    ensures r.1.None? ==> r.0 == c
    ensures r.1.Some? ==> r.1.value == c.stream && r.0.stream == "" && r.0.timer.None? && r.0.started == c.started
  {
    if c.stream == "" then (c, None) else (c.(stream := "", timer := None), Some(c.stream))
  }

  /** Edges on `channels`, one after another, with no expiry between them. */
  function Feed(c: Channel, d0: int, d1: int, channels: seq<int>): Channel
    decreases channels
  {
    if channels == [] then c else Feed(Pulse(c, d0, d1, channels[0]), d0, d1, channels[1..])
  }

  /** The bits data_pulse appends for a sequence of edges. */
  function EdgeBits(d0: int, d1: int, channels: seq<int>): string
  {
    if channels == [] then "" else PulseBit(d0, d1, channels[0]) + EdgeBits(d0, d1, channels[1..])
  }

  predicate OnDataLines(d0: int, d1: int, channels: seq<int>)
  {
    forall i | 0 <= i < |channels| :: channels[i] == d0 || channels[i] == d1
  }

  /**
   * An edge on one of the reader's own data lines keeps the entry
   * consistent; a pending timer is kept as it is, never replaced.
   */
  lemma PulseKeepsConsistent(c: Channel, d0: int, d1: int, channel: int)
    requires Consistent(c) && (channel == d0 || channel == d1)
    ensures Consistent(Pulse(c, d0, d1, channel))
    ensures |Pulse(c, d0, d1, channel).stream| == |c.stream| + 1
    ensures c.timer.Some? ==> Pulse(c, d0, d1, channel).timer == c.timer
  {
  }

  /** An expiry keeps the entry consistent, and leaves it idle whenever it hands a message over. */
  lemma ExpireKeepsConsistent(c: Channel)
    requires Consistent(c)
    ensures Consistent(Expire(c).0)
    ensures Expire(c).1.Some? ==> Expire(c).0 == Idle(c.started)
  {
  }

  /**
   * Edges that arrive before the timer expires all land in the one stream,
   * in order; the only timer started is the one the first edge of the
   * message started (a later edge does not restart it), so the message ends
   * 0.2 s after its first edge.
   */
  lemma {:induction false} FeedAccumulates(c: Channel, d0: int, d1: int, channels: seq<int>)
    requires Consistent(c) && OnDataLines(d0, d1, channels) && channels != []
    ensures var f := Feed(c, d0, d1, channels);
      && Consistent(f)
      && f.stream == c.stream + EdgeBits(d0, d1, channels)
      && f.started == (if c.timer.None? then c.started + 1 else c.started)
      && f.timer == Some(f.started)
    decreases channels
  {
    var next := Pulse(c, d0, d1, channels[0]);
    PulseKeepsConsistent(c, d0, d1, channels[0]);
    if |channels| == 1 {
      assert channels[1..] == [];
    } else {
      FeedAccumulates(next, d0, d1, channels[1..]);
    }
  }

  /**
   * A message received from idle is handed over whole, exactly once, when
   * its single timer expires, and the entry is idle again; a second expiry
   * hands nothing over.
   */
  lemma MessageDelivered(n: nat, d0: int, d1: int, channels: seq<int>)
    requires OnDataLines(d0, d1, channels) && channels != []
    ensures Expire(Feed(Idle(n), d0, d1, channels)) == (Idle(n + 1), Some(EdgeBits(d0, d1, channels)))
    ensures Expire(Idle(n + 1)) == (Idle(n + 1), None)
  {
    FeedAccumulates(Idle(n), d0, d1, channels);
    assert Idle(n).stream + EdgeBits(d0, d1, channels) == EdgeBits(d0, d1, channels);
  }

  /** One reader entry of the configuration, as setup_readers leaves it and the edge callbacks change it. */
  class Reader {
    const name: string
    const d0: int
    const d1: int
    var stream: string
    var timer: Option<nat>
    /** Timers started so far; a Timer's serial number stands for the Timer object itself. */
    var started: nat

    ghost function State(): Channel
      reads this
    {
      Channel(stream, timer, started)
    }

    ghost predicate Valid()
      reads this
    {
      Consistent(State())
    }

    /** setup_readers: empty stream, no timer. */
    constructor (name: string, d0: int, d1: int)
      ensures this.name == name && this.d0 == d0 && this.d1 == d1
      ensures State() == Idle(0) && Valid()
    {
      this.name, this.d0, this.d1 := name, d0, d1;
      stream, timer, started := "", None, 0;
    }

    method DataPulse(channel: int)
      modifies this
      ensures State() == Pulse(old(State()), d0, d1, channel)
    {
      if channel == d0 {
        stream := stream + "0";
      } else if channel == d1 {
        stream := stream + "1";
      }
      KickTimer();
    }

    method KickTimer()
      modifies this
      ensures State() == Kick(old(State()))
    {
      if timer.None? {
        started := started + 1;
        timer := Some(started);
      }
    }

    /** The expiry of the pending timer. */
    method StreamDone() returns (message: Option<string>)
      modifies this
      ensures (State(), message) == Expire(old(State()))
    {
      if stream == "" {
        return None;
      }
      var bitstring := stream;
      stream := "";
      timer := None;
      message := Some(bitstring);
    }
  }

  // ----- setup_readers -----

  /** A top-level configuration value: a section (a JSON object of integers) or any other setting. */
  datatype Entry = Section(fields: map<string, int>) | Setting

  /** `config[name].get(key)` is truthy: present and non-zero. */
  predicate HasPin(e: Entry, key: string)
  {
    e.Section? && key in e.fields && e.fields[key] != 0
  }

  /** The entries setup_readers turns into readers. */
  predicate IsReaderEntry(name: string, e: Entry)
  {
    name != "<zone>" && HasPin(e, "d0") && HasPin(e, "d1")
  }

  /** The configuration in file order; JSON object keys are unique. */
  predicate DistinctNames(config: seq<(string, Entry)>)
  {
    forall i, j | 0 <= i < j < |config| :: config[i].0 != config[j].0
  }

  /** zone_by_pin after setup_readers: each reader claims its d0 and d1, a later reader overriding an earlier one. */
  function RoutePins(config: seq<(string, Entry)>, routes: map<int, string>): map<int, string>
    decreases config
  {
    if config == [] then routes
    else
      var (name, e) := config[0];
      RoutePins(config[1..], if IsReaderEntry(name, e) then routes[e.fields["d0"] := name][e.fields["d1"] := name] else routes)
  }

  /** Every pin with an edge callback routes to a reader for which it is d0 or d1. */
  predicate Routed(readers: map<string, Reader>, routes: map<int, string>, inputs: set<int>)
  {
    forall p | p in inputs ::
      p in routes && routes[p] in readers && (readers[routes[p]].d0 == p || readers[routes[p]].d1 == p)
  }

  /** The names of the reader entries among `config`. */
  function ReaderNames(config: seq<(string, Entry)>): set<string>
  {
    if config == [] then {}
    else
      var (name, e) := config[|config| - 1];
      ReaderNames(config[..|config| - 1]) + if IsReaderEntry(name, e) then {name} else {}
  }

  /** The d0 and d1 pins of the reader entries among `config`. */
  function DataPins(config: seq<(string, Entry)>): set<int>
  {
    if config == [] then {}
    else
      var (name, e) := config[|config| - 1];
      DataPins(config[..|config| - 1]) + if IsReaderEntry(name, e) then {e.fields["d0"], e.fields["d1"]} else {}
  }

  lemma {:induction false} ReaderNamesFrom(config: seq<(string, Entry)>, n: string)
    requires n in ReaderNames(config)
    ensures exists i | 0 <= i < |config| :: config[i].0 == n && IsReaderEntry(config[i].0, config[i].1)
  {
    var last := |config| - 1;
    if !(IsReaderEntry(config[last].0, config[last].1) && n == config[last].0) {
      ReaderNamesFrom(config[..last], n);
      var i :| 0 <= i < last && config[..last][i].0 == n && IsReaderEntry(config[..last][i].0, config[..last][i].1);
      assert config[i] == config[..last][i];
    }
  }

  /**
   * setup_readers: every entry other than "<zone>" whose d0 and d1 are truthy
   * becomes a fresh reader with an empty stream and no timer; its data pins
   * get edge callbacks and are routed to it in zone_by_pin.
   */
  method SetupReaders(config: seq<(string, Entry)>, routes0: map<int, string>)
    returns (readers: map<string, Reader>, routes: map<int, string>, inputs: set<int>)
    requires DistinctNames(config)
    ensures readers.Keys == ReaderNames(config)
    ensures forall i | 0 <= i < |config| && IsReaderEntry(config[i].0, config[i].1) ::
      config[i].0 in readers &&
      var r := readers[config[i].0];
      r.d0 == config[i].1.fields["d0"] && r.d1 == config[i].1.fields["d1"]
    ensures forall n | n in readers :: fresh(readers[n]) && readers[n].name == n && readers[n].State() == Idle(0)
    ensures routes == RoutePins(config, routes0)
    ensures inputs == DataPins(config)
    ensures Routed(readers, routes, inputs)
  {
    readers, routes, inputs := map[], routes0, {};
    for k := 0 to |config|
      invariant readers.Keys == ReaderNames(config[..k])
      invariant forall i | 0 <= i < k && IsReaderEntry(config[i].0, config[i].1) ::
        config[i].0 in readers &&
        var r := readers[config[i].0];
        r.d0 == config[i].1.fields["d0"] && r.d1 == config[i].1.fields["d1"]
      invariant forall n | n in readers :: fresh(readers[n]) && readers[n].name == n && readers[n].State() == Idle(0)
      invariant RoutePins(config[k..], routes) == RoutePins(config, routes0)
      invariant inputs == DataPins(config[..k])
      invariant Routed(readers, routes, inputs)
    {
      var (name, e) := config[k];
      assert config[k..][1..] == config[k + 1..];
      assert config[..k + 1][..k] == config[..k];
      if IsReaderEntry(name, e) {
        assert name !in readers by {
          if name in readers {
            ReaderNamesFrom(config[..k], name);
          }
        }
        var reader := new Reader(name, e.fields["d0"], e.fields["d1"]);
        readers := readers[name := reader];
        routes := routes[reader.d0 := name][reader.d1 := name];
        inputs := inputs + {reader.d0, reader.d1};
      }
    }
    assert config[..|config|] == config;
  }
}
